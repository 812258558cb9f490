/** The 16-bit pair access exactly as src/cpu.rs writes it: both `read_u16`
    and `write_u16` look the pair's `upper` register up twice, where the second
    lookup should name `lower`. The lemmas below state how this departs from
    the intended access of module Access, which the rest of the model uses. */
module AsWritten {
  import opened Wrappers
  import opened RegNames
  import opened CpuState
  import Access

  /** `CpuRegisterPair::read_u16` as written (and the `CpuRegister` panic for a byte register). */
  function ReadU16(s: Cpu, n: RegName): (r: Result<bv16, Access.AccessError>)
    ensures r.Success? <==> IsPair(n)
    ensures r.Success? ==> r.value as int == Get(s, View(n).upper) as int * 257
    ensures r.Failure? ==> r.error == Access.InvalidAccessWidth(n, Access.Read, Access.U16)
  {
    if !IsPair(n) then Failure(Access.InvalidAccessWidth(n, Access.Read, Access.U16))
    else
      var view := View(n);
      var upper := view.upper;
      var lower := view.upper;
      var hi := Access.ReadU8(s, upper).value;
      var lo := Access.ReadU8(s, lower).value;
      Success(Access.Join(hi, lo))
  }

  /** `CpuRegisterPair::write_u16` as written (and the `CpuRegister` panic for a byte register). */
  function WriteU16(s: Cpu, n: RegName, v: bv16): (r: Result<Cpu, Access.AccessError>)
    ensures r.Success? <==> IsPair(n)
    ensures r.Success? ==> Get(r.value, View(n).upper) == Access.LowByte(v)
    ensures r.Success? ==>
      forall q: ByteName :: q != View(n).upper ==> Get(r.value, q) == Get(s, q)
    ensures r.Success? ==> r.value.pc == s.pc && r.value.sp == s.sp
    ensures r.Failure? ==> r.error == Access.InvalidAccessWidth(n, Access.Write, Access.U16)
  {
    if !IsPair(n) then Failure(Access.InvalidAccessWidth(n, Access.Write, Access.U16))
    else
      var view := View(n);
      var upper := view.upper;
      var lower := view.upper;
      var upperVal := (v >> 8) & 0xff;
      var lowerVal := v & 0xff;
      Access.SplitReconstructs(v);
      var s1 := Access.WriteU8(s, upper, Access.Unwrap(upperVal)).value;
      Success(Access.WriteU8(s1, lower, Access.Unwrap(lowerVal)).value)
  }

  /** A pair read as written never looks at the lower register: two states
      that agree on the upper register read the same. */
  lemma ReadIgnoresLower(s: Cpu, t: Cpu, p: RegName)
    requires IsPair(p)
    requires Get(s, View(p).upper) == Get(t, View(p).upper)
    requires Get(s, View(p).lower) != Get(t, View(p).lower)
    ensures ReadU16(s, p) == ReadU16(t, p)
    ensures Access.ReadU16(s, p) != Access.ReadU16(t, p)
  {
  }

  /** A pair write as written never touches the lower register. */
  lemma WriteMissesLower(s: Cpu, p: RegName, v: bv16)
    requires IsPair(p)
    ensures Get(WriteU16(s, p, v).value, View(p).lower) == Get(s, View(p).lower)
    ensures Get(WriteU16(s, p, v).value, View(p).upper) == Access.LowByte(v)
  {
  }

  /** The as-written read agrees with the intended one exactly when the two
      halves of the pair hold the same byte. */
  lemma ReadAgreesIff(s: Cpu, p: RegName)
    requires IsPair(p)
    ensures ReadU16(s, p) == Access.ReadU16(s, p) <==> Get(s, View(p).upper) == Get(s, View(p).lower)
  {
  }

  /** The as-written round trip returns the written value exactly when its
      high and low bytes are equal; every other value comes back wrong. */
  lemma RoundTripIff(s: Cpu, p: RegName, v: bv16)
    requires IsPair(p)
    ensures ReadU16(WriteU16(s, p, v).value, p) == Success(v) <==> Access.HighByte(v) == Access.LowByte(v)
  {
  }

  /** The concrete read failure: with B = 0x12 and C = 0x34, BC reads 0x1212. */
  lemma ReadFailsAt0x1234()
    ensures ReadU16(Set(Set(New(), B, 0x12), C, 0x34), BC) == Success(0x1212)
    ensures Access.ReadU16(Set(Set(New(), B, 0x12), C, 0x34), BC) == Success(0x1234)
  {
  }

  /** The concrete failure: writing 0x1234 to BC and reading BC back yields 0x3434. */
  lemma RoundTripFailsAt0x1234()
    ensures ReadU16(WriteU16(New(), BC, 0x1234).value, BC) == Success(0x3434)
    ensures Access.ReadU16(Access.WriteU16(New(), BC, 0x1234).value, BC) == Success(0x1234)
  {
  }
}
