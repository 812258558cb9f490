/** Width-checked access by register name (src/cpu.rs, the `RegValue`
    implementations of `CpuRegister` and `CpuRegisterPair`), with pairs read
    and written through their upper and lower byte registers as the pair
    table and the doc comment on `RegName` describe. An access of the wrong
    width panics in the source; here it is a `Failure` that commits nothing. */
module Access {
  import opened Wrappers
  import opened RegNames
  import opened CpuState

  datatype Direction = Read | Write
  datatype Width = U8 | U16

  /** The only failure: an 8-bit access to a pair or a 16-bit access to a byte register. */
  datatype AccessError = InvalidAccessWidth(name: RegName, direction: Direction, width: Width)

  /** The state after a write: a refused write leaves the caller's state as it was. */
  function Commit(s: Cpu, r: Result<Cpu, AccessError>): Cpu {
    if r.Success? then r.value else s
  }

  /** `read_u8`: the register's cell, or a refusal for a pair. */
  function ReadU8(s: Cpu, n: RegName): (r: Result<bv8, AccessError>)
    ensures r.Success? <==> IsByte(n)
    ensures r.Success? ==> r.value == Get(s, n)
    ensures r.Failure? ==> r.error == InvalidAccessWidth(n, Read, U8)
  {
    if IsByte(n) then Success(Get(s, n)) else Failure(InvalidAccessWidth(n, Read, U8))
  }

  /** `write_u8`: overwrite the register's cell and nothing else, or refuse for a pair. */
  function WriteU8(s: Cpu, n: RegName, v: bv8): (r: Result<Cpu, AccessError>)
    ensures r.Success? <==> IsByte(n)
    ensures r.Success? ==> Get(r.value, n) == v
    ensures r.Success? ==> forall q: ByteName :: q != n ==> Get(r.value, q) == Get(s, q)
    ensures r.Success? ==> r.value.pc == s.pc && r.value.sp == s.sp
    ensures r.Failure? ==> r.error == InvalidAccessWidth(n, Write, U8)
  {
    if IsByte(n) then Success(Set(s, n, v)) else Failure(InvalidAccessWidth(n, Write, U8))
  }

  /** `u16::try_into::<u8>().unwrap()`: defined only where the conversion cannot panic. */
  function Unwrap(x: bv16): (b: bv8)
    requires x <= 0xff
    ensures b as int == x as int
  {
    x as bv8
  }

  /** The byte split performed by `write_u16` is lossless: both parts fit in a
      byte, so neither unwrap can fail, and high * 256 + low is the value again. */
  lemma SplitReconstructs(v: bv16)
    ensures (v >> 8) & 0xff <= 0xff && v & 0xff <= 0xff
    ensures Unwrap((v >> 8) & 0xff) as int * 256 + Unwrap(v & 0xff) as int == v as int
  {
  }

  /** Quotient and remainder by 256 of a number given as high * 256 + low. */
  lemma DivMod256(x: int, hi: int, lo: int)
    requires x == hi * 256 + lo && 0 <= lo < 256
    ensures x / 256 == hi && x % 256 == lo
  {
  }

  /** Shifting hi into the high byte and or-ing in lo gives hi * 256 + lo. */
  lemma JoinBytes(hi: bv8, lo: bv8)
    ensures (((hi as bv16) << 8) | (lo as bv16)) as int == hi as int * 256 + lo as int
  {
    var v := ((hi as bv16) << 8) | (lo as bv16);
    assert (v >> 8) & 0xff == hi as bv16 && v & 0xff == lo as bv16;
    SplitReconstructs(v);
  }

  /** The 16-bit value whose high byte is hi and low byte is lo. */
  function Join(hi: bv8, lo: bv8): (v: bv16)
    ensures v as int == hi as int * 256 + lo as int
  {
    JoinBytes(hi, lo);
    ((hi as bv16) << 8) | (lo as bv16)
  }

  /** Bits 15..8 of a 16-bit value. */
  function HighByte(v: bv16): (b: bv8)
    ensures b as int == v as int / 256
  {
    SplitReconstructs(v);
    DivMod256(v as int, ((v >> 8) & 0xff) as int, (v & 0xff) as int);
    ((v >> 8) & 0xff) as bv8
  }

  /** Bits 7..0 of a 16-bit value. */
  function LowByte(v: bv16): (b: bv8)
    ensures b as int == v as int % 256
  {
    SplitReconstructs(v);
    DivMod256(v as int, ((v >> 8) & 0xff) as int, (v & 0xff) as int);
    (v & 0xff) as bv8
  }

  /** Splitting and joining are inverse to each other. */
  lemma JoinSplit(v: bv16, hi: bv8, lo: bv8)
    ensures Join(HighByte(v), LowByte(v)) == v
    ensures HighByte(Join(hi, lo)) == hi && LowByte(Join(hi, lo)) == lo
  {
  }

  /** `read_u16`: the upper register's cell is the high byte, the lower register's the low byte. */
  function ReadU16(s: Cpu, n: RegName): (r: Result<bv16, AccessError>)
    ensures r.Success? <==> IsPair(n)
    ensures r.Success? ==> HighByte(r.value) == Get(s, View(n).upper)
    ensures r.Success? ==> LowByte(r.value) == Get(s, View(n).lower)
    ensures r.Failure? ==> r.error == InvalidAccessWidth(n, Read, U16)
  {
    if !IsPair(n) then Failure(InvalidAccessWidth(n, Read, U16))
    else
      var view := View(n);
      var hi := ReadU8(s, view.upper).value;
      var lo := ReadU8(s, view.lower).value;
      JoinSplit(0, hi, lo);
      Success(Join(hi, lo))
  }

  /** `write_u16`: split the value into its high and low byte and write them to
      the upper and then the lower register. */
  function WriteU16(s: Cpu, n: RegName, v: bv16): (r: Result<Cpu, AccessError>)
    ensures r.Success? <==> IsPair(n)
    ensures r.Success? ==> Get(r.value, View(n).upper) == HighByte(v)
    ensures r.Success? ==> Get(r.value, View(n).lower) == LowByte(v)
    ensures r.Success? ==>
      forall q: ByteName :: q != View(n).upper && q != View(n).lower ==> Get(r.value, q) == Get(s, q)
    ensures r.Success? ==> r.value.pc == s.pc && r.value.sp == s.sp
    ensures r.Failure? ==> r.error == InvalidAccessWidth(n, Write, U16)
  {
    if !IsPair(n) then Failure(InvalidAccessWidth(n, Write, U16))
    else
      var view := View(n);
      var upperVal := (v >> 8) & 0xff;
      var lowerVal := v & 0xff;
      var s1 := WriteU8(s, view.upper, Unwrap(upperVal)).value;
      Success(WriteU8(s1, view.lower, Unwrap(lowerVal)).value)
  }

  /** A byte write is seen by the next read of that register; every other
      register, pc and sp keep their values. */
  lemma ByteWriteThenRead(s: Cpu, r: RegName, v: bv8)
    requires IsByte(r)
    ensures WriteU8(s, r, v).Success?
    ensures ReadU8(WriteU8(s, r, v).value, r) == Success(v)
    ensures forall q: RegName :: IsByte(q) && q != r ==>
      ReadU8(WriteU8(s, r, v).value, q) == ReadU8(s, q)
    ensures WriteU8(s, r, v).value.pc == s.pc && WriteU8(s, r, v).value.sp == s.sp
  {
  }

  /** Round trip: a pair read after a pair write returns the value written. */
  lemma PairWriteThenRead(s: Cpu, p: RegName, v: bv16)
    requires IsPair(p)
    ensures WriteU16(s, p, v).Success?
    ensures ReadU16(WriteU16(s, p, v).value, p) == Success(v)
  {
  }

  /** Writing a pair's current value back to it changes nothing. */
  lemma PairWriteOwnValue(s: Cpu, p: RegName)
    requires IsPair(p)
    ensures WriteU16(s, p, ReadU16(s, p).value) == Success(s)
  {
    var v := ReadU16(s, p).value;
    JoinSplit(v, Get(s, View(p).upper), Get(s, View(p).lower));
    Extensionality(WriteU16(s, p, v).value, s);
  }

  /** A pair write is seen through the byte registers: the upper one holds the
      high byte, the lower one the low byte, and no other register changes. */
  lemma PairWriteVisibleInBytes(s: Cpu, p: RegName, v: bv16)
    requires IsPair(p)
    ensures ReadU8(WriteU16(s, p, v).value, View(p).upper) == Success((v >> 8) as bv8)
    ensures ReadU8(WriteU16(s, p, v).value, View(p).lower) == Success((v & 0xff) as bv8)
    ensures forall q: RegName :: IsByte(q) && q != View(p).upper && q != View(p).lower ==>
      ReadU8(WriteU16(s, p, v).value, q) == ReadU8(s, q)
  {
  }

  /** Byte writes are seen through the pair: after writing hi to the upper
      and lo to the lower register, the pair reads hi * 256 + lo. */
  lemma ByteWritesVisibleInPair(s: Cpu, p: RegName, hi: bv8, lo: bv8)
    requires IsPair(p)
    ensures ReadU16(WriteU8(WriteU8(s, View(p).upper, hi).value, View(p).lower, lo).value, p)
            == Success((hi as bv16) * 256 + lo as bv16)
  {
  }

  /** Writing one pair leaves the value of every other pair unchanged. */
  lemma PairWriteFramesOtherPairs(s: Cpu, p: RegName, q: RegName, v: bv16)
    requires IsPair(p) && IsPair(q) && p != q
    ensures ReadU16(WriteU16(s, p, v).value, q) == ReadU16(s, q)
  {
    ViewsDisjoint(p, q);
  }

  /** Every access of the wrong width is refused with the offending name and
      width, and a refused write commits nothing. */
  lemma WidthMismatchRejected(s: Cpu, n: RegName, v8: bv8, v16: bv16)
    ensures IsByte(n) ==> ReadU16(s, n) == Failure(InvalidAccessWidth(n, Read, U16))
    ensures IsByte(n) ==> WriteU16(s, n, v16) == Failure(InvalidAccessWidth(n, Write, U16))
    ensures IsByte(n) ==> Commit(s, WriteU16(s, n, v16)) == s
    ensures IsPair(n) ==> ReadU8(s, n) == Failure(InvalidAccessWidth(n, Read, U8))
    ensures IsPair(n) ==> WriteU8(s, n, v8) == Failure(InvalidAccessWidth(n, Write, U8))
    ensures IsPair(n) ==> Commit(s, WriteU8(s, n, v8)) == s
  {
  }

  /** A fresh CPU reads zero through every name, at the width that name supports. */
  lemma FreshStateReadsZero(n: RegName)
    ensures IsByte(n) ==> ReadU8(New(), n) == Success(0)
    ensures IsPair(n) ==> ReadU16(New(), n) == Success(0)
    ensures New().pc == 0 && New().sp == 0
  {
  }
}
