/** Register names of the CPU and the fixed table saying which two byte
    registers each 16-bit pair is a view over (src/cpu.rs, `RegName`,
    `CpuRegisterPair` and the pair entries inserted by `Cpu::new`). */
module RegNames {

  /** The closed name space: eight byte registers followed by four pairs. */
  datatype RegName = B | C | D | E | H | L | A | F | BC | DE | HL | AF

  /** Names that own an 8-bit cell. */
  predicate IsByte(n: RegName) {
    n.B? || n.C? || n.D? || n.E? || n.H? || n.L? || n.A? || n.F?
  }

  /** Names that are 16-bit views over two byte registers. */
  predicate IsPair(n: RegName) {
    n.BC? || n.DE? || n.HL? || n.AF?
  }

  type ByteName = n: RegName | IsByte(n) witness B
  type PairName = n: RegName | IsPair(n) witness BC

  /** The text a name displays as (the derived `Debug` form, which `Display` reuses). */
  function Name(n: RegName): string {
    match n
    case B => "B"
    case C => "C"
    case D => "D"
    case E => "E"
    case H => "H"
    case L => "L"
    case A => "A"
    case F => "F"
    case BC => "BC"
    case DE => "DE"
    case HL => "HL"
    case AF => "AF"
  }

  /** The two byte registers a pair reads and writes: `upper` holds the high byte. */
  datatype PairView = PairView(upper: ByteName, lower: ByteName)

  /** The pair table: a pair is named by its upper register followed by its lower one. */
  function View(p: PairName): (v: PairView)
    ensures v.upper != v.lower
    ensures Name(p) == Name(v.upper) + Name(v.lower)
  {
    if p == BC then PairView(B, C)
    else if p == DE then PairView(D, E)
    else if p == HL then PairView(H, L)
    else PairView(A, F)
  }

  /** Every name is exactly one of the two kinds. */
  lemma KindsPartitionNames(n: RegName)
    ensures IsByte(n) != IsPair(n)
  {
  }

  /** The naming convention alone determines the pair table: any two byte
      registers whose names spell the pair's name are its upper and lower halves. */
  lemma ViewDeterminedByName(p: PairName, upper: ByteName, lower: ByteName)
    requires Name(p) == Name(upper) + Name(lower)
    ensures View(p) == PairView(upper, lower)
  {
    assert |Name(upper)| == 1 && |Name(lower)| == 1;
    assert Name(upper) == Name(p)[..1] && Name(lower) == Name(p)[1..];
  }

  /** Distinct pairs share no byte register, so writing one pair never
      disturbs another. */
  lemma ViewsDisjoint(p: PairName, q: PairName)
    requires p != q
    ensures View(p).upper != View(q).upper && View(p).upper != View(q).lower
    ensures View(p).lower != View(q).upper && View(p).lower != View(q).lower
  {
  }

  /** The four pairs cover all eight byte registers. */
  lemma EveryByteInSomePair(r: ByteName)
    ensures exists p: PairName :: View(p).upper == r || View(p).lower == r
  {
    var p: PairName :=
      if r == B || r == C then BC
      else if r == D || r == E then DE
      else if r == H || r == L then HL
      else AF;
    assert View(p).upper == r || View(p).lower == r;
  }
}
