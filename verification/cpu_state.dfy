/** CPU state (src/cpu.rs, `Cpu`, `CpuRegister`): one 8-bit cell per byte
    register plus the program counter and stack pointer. Pairs own no storage,
    so they have no field here. */
module CpuState {
  import opened RegNames

  datatype Cpu = Cpu(b: bv8, c: bv8, d: bv8, e: bv8, h: bv8, l: bv8, a: bv8, f: bv8,
                     pc: bv16, sp: bv16)

  /** Projection of the state onto the cell a byte register owns; reading it
      by name, with the width check, is `Access.ReadU8`. */
  function Get(s: Cpu, r: ByteName): bv8 {
    match r
    case B => s.b
    case C => s.c
    case D => s.d
    case E => s.e
    case H => s.h
    case L => s.l
    case A => s.a
    case F => s.f
  }

  /** Overwrite the cell owned by a byte register (`CpuRegister::write_u8`). */
  function Set(s: Cpu, r: ByteName, v: bv8): (s': Cpu)
    ensures Get(s', r) == v
    ensures forall q: ByteName :: q != r ==> Get(s', q) == Get(s, q)
    ensures s'.pc == s.pc && s'.sp == s.sp
  {
    match r
    case B => s.(b := v)
    case C => s.(c := v)
    case D => s.(d := v)
    case E => s.(e := v)
    case H => s.(h := v)
    case L => s.(l := v)
    case A => s.(a := v)
    case F => s.(f := v)
  }

  /** Two states are equal exactly when every byte register, pc and sp agree:
      the cells are the whole state. */
  lemma Extensionality(s: Cpu, t: Cpu)
    requires forall r: ByteName :: Get(s, r) == Get(t, r)
    requires s.pc == t.pc && s.sp == t.sp
    ensures s == t
  {
    assert Get(s, B) == Get(t, B) && Get(s, C) == Get(t, C);
    assert Get(s, D) == Get(t, D) && Get(s, E) == Get(t, E);
    assert Get(s, H) == Get(t, H) && Get(s, L) == Get(t, L);
    assert Get(s, A) == Get(t, A) && Get(s, F) == Get(t, F);
  }

  /** `Cpu::new`: every cell, pc and sp start at zero. */
  function New(): (s: Cpu)
    ensures forall r: ByteName :: Get(s, r) == 0
    ensures s.pc == 0 && s.sp == 0
  {
    Cpu(0, 0, 0, 0, 0, 0, 0, 0, 0, 0)
  }

  /** Writing a register twice keeps only the second value. */
  lemma SetSetSame(s: Cpu, r: ByteName, v: bv8, w: bv8)
    ensures Set(Set(s, r, v), r, w) == Set(s, r, w)
  {
  }

  /** Writes to different registers do not interfere, so their order is irrelevant. */
  lemma SetSetCommute(s: Cpu, r: ByteName, q: ByteName, v: bv8, w: bv8)
    requires r != q
    ensures Set(Set(s, r, v), q, w) == Set(Set(s, q, w), r, v)
  {
  }

  /** Writing back the value a register already holds changes nothing. */
  lemma SetGetIdentity(s: Cpu, r: ByteName)
    ensures Set(s, r, Get(s, r)) == s
  {
  }
}
