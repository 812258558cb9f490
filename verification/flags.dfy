/** The four condition flags packed into the top nibble of register F
    (src/cpu.rs, `FlagName`, `Cpu::set_flag`, `Cpu::set_flags`). */
module Flags {
  import R = RegNames
  import S = CpuState
  import X = Access

  /** Zero, subtract, half-carry and carry. */
  datatype FlagName = Z | N | H | C

  /** Bit position of a flag within F. */
  function Index(flag: FlagName): (i: nat)
    ensures 4 <= i < 8
  {
    match flag
    case Z => 7
    case N => 6
    case H => 5
    case C => 4
  }

  /** Whether bit i of x is set. */
  predicate Bit(x: bv8, i: nat)
    requires i < 8
  {
    (x >> i) & 1 == 1
  }

  /** The current value of register F. */
  function FlagsByte(s: S.Cpu): bv8 {
    S.Get(s, R.F)
  }

  /** `x | (1 << k)` sets bit k and leaves every other bit alone. */
  lemma SetBitOnly(x: bv8, k: nat)
    requires k < 8
    ensures Bit(x | (1 << k), k)
    ensures forall i :: 0 <= i < 8 && i != k ==> Bit(x | (1 << k), i) == Bit(x, i)
  {
  }

  /** `x & !(1 << k)` clears bit k and leaves every other bit alone. */
  lemma ClearBitOnly(x: bv8, k: nat)
    requires k < 8
    ensures !Bit(x & !(1 << k), k)
    ensures forall i :: 0 <= i < 8 && i != k ==> Bit(x & !(1 << k), i) == Bit(x, i)
  {
  }

  /** The masking step of `set_flag`: with mask = 1 << k, set bit k by
      `| mask` or clear it by `& !mask`. Only bit k can change. */
  function UpdateBit(x: bv8, k: nat, value: bool): (y: bv8)
    requires k < 8
    ensures Bit(y, k) == value
    ensures forall i :: 0 <= i < 8 && i != k ==> Bit(y, i) == Bit(x, i)
  {
    if value then
      var y := x | (1 << k);
      SetBitOnly(x, k);
      y
    else
      var y := x & !(1 << k);
      ClearBitOnly(x, k);
      y
  }

  /** Whether a flag is currently set. */
  predicate IsSet(s: S.Cpu, flag: FlagName) {
    Bit(FlagsByte(s), Index(flag))
  }

  /** `set_flag`: read F, set or clear the flag's bit, write F back. Exactly
      that bit changes; every other bit of F and every other register keeps
      its value. */
  function SetFlag(s: S.Cpu, flag: FlagName, value: bool): (s': S.Cpu)
    ensures IsSet(s', flag) == value
    ensures forall i :: 0 <= i < 8 && i != Index(flag) ==> Bit(FlagsByte(s'), i) == Bit(FlagsByte(s), i)
    ensures forall q: R.ByteName :: q != R.F ==> S.Get(s', q) == S.Get(s, q)
    ensures s'.pc == s.pc && s'.sp == s.sp
  {
    var current := X.ReadU8(s, R.F).value;
    X.WriteU8(s, R.F, UpdateBit(current, Index(flag), value)).value
  }

  /** `b as u8` for a bool. */
  function AsU8(b: bool): (x: bv8)
    ensures x == 0 || x == 1
    ensures b <==> x == 1
  {
    if b then 1 else 0
  }

  /** `set_flags`: overwrite F with all four flags at once; the low nibble is cleared. */
  function SetFlags(s: S.Cpu, z: bool, n: bool, h: bool, c: bool): (s': S.Cpu)
    ensures FlagsByte(s') == (AsU8(z) << 7) | (AsU8(n) << 6) | (AsU8(h) << 5) | (AsU8(c) << 4)
    ensures IsSet(s', Z) == z && IsSet(s', N) == n && IsSet(s', H) == h && IsSet(s', C) == c
    ensures forall i :: 0 <= i < 4 ==> !Bit(FlagsByte(s'), i)
    ensures forall q: R.ByteName :: q != R.F ==> S.Get(s', q) == S.Get(s, q)
    ensures s'.pc == s.pc && s'.sp == s.sp
  {
    var flagNibble := AsU8(c) | (AsU8(h) << 1) | (AsU8(n) << 2) | (AsU8(z) << 3);
    var flagValue := flagNibble << 4;
    X.WriteU8(s, R.F, flagValue).value
  }

  /** Register F is determined by its eight bits. */
  lemma BitsDetermineByte(x: bv8, y: bv8)
    requires forall i :: 0 <= i < 8 ==> Bit(x, i) == Bit(y, i)
    ensures x == y
  {
    assert Bit(x, 0) == Bit(y, 0) && Bit(x, 1) == Bit(y, 1);
    assert Bit(x, 2) == Bit(y, 2) && Bit(x, 3) == Bit(y, 3);
    assert Bit(x, 4) == Bit(y, 4) && Bit(x, 5) == Bit(y, 5);
    assert Bit(x, 6) == Bit(y, 6) && Bit(x, 7) == Bit(y, 7);
  }

  /** Setting a flag to the value it is being set to again changes nothing more. */
  lemma SetFlagIdempotent(s: S.Cpu, flag: FlagName, value: bool)
    ensures SetFlag(SetFlag(s, flag, value), flag, value) == SetFlag(s, flag, value)
  {
  }

  /** Writes to two different flags commute. */
  lemma SetFlagCommutes(s: S.Cpu, f: FlagName, g: FlagName, a: bool, b: bool)
    requires f != g
    ensures SetFlag(SetFlag(s, f, a), g, b) == SetFlag(SetFlag(s, g, b), f, a)
  {
    var fg := SetFlag(SetFlag(s, f, a), g, b);
    var gf := SetFlag(SetFlag(s, g, b), f, a);
    forall i | 0 <= i < 8
      ensures Bit(FlagsByte(fg), i) == Bit(FlagsByte(gf), i)
    {
      assert Index(f) != Index(g);
    }
    BitsDetermineByte(FlagsByte(fg), FlagsByte(gf));
    S.Extensionality(fg, gf);
  }

  /** `set_flags` does not depend on what F held before. */
  lemma SetFlagsIgnoresPriorF(s: S.Cpu, prior: bv8, z: bool, n: bool, h: bool, c: bool)
    ensures SetFlags(S.Set(s, R.F, prior), z, n, h, c) == SetFlags(s, z, n, h, c)
  {
  }

  /** One call of `set_flag`. */
  datatype FlagWrite = FlagWrite(flag: FlagName, value: bool)

  /** The state after a sequence of `set_flag` calls, in order. */
  function ApplyFlagWrites(s: S.Cpu, ws: seq<FlagWrite>): S.Cpu
    decreases |ws|
  {
    if |ws| == 0 then s
    else ApplyFlagWrites(SetFlag(s, ws[0].flag, ws[0].value), ws[1..])
  }

  /** The value a flag has after a sequence of writes: the last write to it,
      or its old value when the sequence never writes it. */
  function LastWritten(ws: seq<FlagWrite>, flag: FlagName, initial: bool): bool
    decreases |ws|
  {
    if |ws| == 0 then initial
    else if ws[|ws| - 1].flag == flag then ws[|ws| - 1].value
    else LastWritten(ws[..|ws| - 1], flag, initial)
  }

  /** Any sequence of `set_flag` calls leaves each flag holding its last written
      value, leaves bits 0..3 of F alone, and touches no other register. */
  lemma {:induction false} FlagWritesFrame(s: S.Cpu, ws: seq<FlagWrite>)
    ensures forall f: FlagName :: IsSet(ApplyFlagWrites(s, ws), f) == LastWritten(ws, f, IsSet(s, f))
    ensures forall i :: 0 <= i < 4 ==> Bit(FlagsByte(ApplyFlagWrites(s, ws)), i) == Bit(FlagsByte(s), i)
    ensures forall q: R.ByteName :: q != R.F ==> S.Get(ApplyFlagWrites(s, ws), q) == S.Get(s, q)
    ensures ApplyFlagWrites(s, ws).pc == s.pc && ApplyFlagWrites(s, ws).sp == s.sp
    decreases |ws|
  {
    if |ws| > 0 {
      var t := SetFlag(s, ws[0].flag, ws[0].value);
      var rest := ws[1..];
      FlagWritesFrame(t, rest);
      forall f: FlagName
        ensures IsSet(ApplyFlagWrites(s, ws), f) == LastWritten(ws, f, IsSet(s, f))
      {
        LastWrittenSplit(ws, f, IsSet(s, f));
        if f != ws[0].flag {
          assert Index(f) != Index(ws[0].flag);
        }
      }
    }
  }

  /** Peeling the first write off a sequence: it becomes the starting value
      seen by the rest. */
  lemma {:induction false} LastWrittenSplit(ws: seq<FlagWrite>, flag: FlagName, initial: bool)
    requires |ws| > 0
    ensures LastWritten(ws, flag, initial)
         == LastWritten(ws[1..], flag, if ws[0].flag == flag then ws[0].value else initial)
    decreases |ws|
  {
    if |ws| > 1 {
      var last := ws[|ws| - 1];
      if last.flag != flag {
        assert ws[..|ws| - 1][1..] == ws[1..][..|ws[1..]| - 1];
        LastWrittenSplit(ws[..|ws| - 1], flag, initial);
      }
    }
  }

  /** The four writes `set_flags` performs, in order Z, N, H, C. */
  function FourWrites(z: bool, n: bool, h: bool, c: bool): seq<FlagWrite> {
    [FlagWrite(Z, z), FlagWrite(N, n), FlagWrite(H, h), FlagWrite(C, c)]
  }

  /** Each flag is written exactly once by the four writes. */
  lemma FourWritesLastWritten(z: bool, n: bool, h: bool, c: bool, initial: bool)
    ensures LastWritten(FourWrites(z, n, h, c), Z, initial) == z
    ensures LastWritten(FourWrites(z, n, h, c), N, initial) == n
    ensures LastWritten(FourWrites(z, n, h, c), H, initial) == h
    ensures LastWritten(FourWrites(z, n, h, c), C, initial) == c
  {
    var ws := FourWrites(z, n, h, c);
    var w3 := [FlagWrite(Z, z), FlagWrite(N, n), FlagWrite(H, h)];
    var w2 := [FlagWrite(Z, z), FlagWrite(N, n)];
    var w1 := [FlagWrite(Z, z)];
    assert ws[..3] == w3 && w3[..2] == w2 && w2[..1] == w1;
    assert LastWritten(ws, N, initial) == LastWritten(w3, N, initial) == LastWritten(w2, N, initial);
    assert LastWritten(ws, Z, initial) == LastWritten(w3, Z, initial) == LastWritten(w2, Z, initial)
        == LastWritten(w1, Z, initial);
  }

  /** Register F after `set_flags` agrees with F after the four writes. */
  lemma FourWritesFlagsByte(s: S.Cpu, z: bool, n: bool, h: bool, c: bool)
    ensures FlagsByte(SetFlags(s, z, n, h, c))
         == FlagsByte(ApplyFlagWrites(S.Set(s, R.F, 0), FourWrites(z, n, h, c)))
  {
    var cleared := S.Set(s, R.F, 0);
    var x := FlagsByte(ApplyFlagWrites(cleared, FourWrites(z, n, h, c)));
    var y := FlagsByte(SetFlags(s, z, n, h, c));
    FlagWritesFrame(cleared, FourWrites(z, n, h, c));
    FourWritesLastWritten(z, n, h, c, false);
    forall i | 0 <= i < 8
      ensures Bit(x, i) == Bit(y, i)
    {
      if i < 4 {
        assert !Bit(FlagsByte(cleared), i);
      } else {
        assert i == Index(Z) || i == Index(N) || i == Index(H) || i == Index(C);
      }
    }
    BitsDetermineByte(x, y);
  }

  /** `set_flags(z, n, h, c)` is `set_flag` for Z, N, H and C in turn, applied
      to the state with F cleared. */
  lemma SetFlagsIsFourSetFlags(s: S.Cpu, z: bool, n: bool, h: bool, c: bool)
    ensures SetFlags(s, z, n, h, c) == ApplyFlagWrites(S.Set(s, R.F, 0), FourWrites(z, n, h, c))
  {
    var cleared := S.Set(s, R.F, 0);
    FlagWritesFrame(cleared, FourWrites(z, n, h, c));
    FourWritesFlagsByte(s, z, n, h, c);
    S.Extensionality(SetFlags(s, z, n, h, c), ApplyFlagWrites(cleared, FourWrites(z, n, h, c)));
  }

  /** Worked values: from a fresh CPU, setting Z gives F = 0x80, then setting C
      gives 0x90; `set_flags(true, false, true, false)` gives 0xA0 whatever F held. */
  lemma FlagExamples(s: S.Cpu)
    ensures FlagsByte(SetFlag(S.New(), Z, true)) == 0x80
    ensures FlagsByte(SetFlag(SetFlag(S.New(), Z, true), C, true)) == 0x90
    ensures FlagsByte(SetFlags(s, true, false, true, false)) == 0xA0
  {
  }
}
