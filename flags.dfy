/** The F register of the CPU (cpu.py:50-72): Z is bit 7, N bit 6, H bit 5
    and C bit 4.  Each setter is written as "remove the old bit, add the new
    one"; the `...IsMask` lemmas show that this is the source's
    `(f & mask) | (value << k)`. */
module Flags {
  import opened Bits

  function Z(f: byte): bit { (f / 0x80) % 2 }
  function N(f: byte): bit { (f / 0x40) % 2 }
  function H(f: byte): bit { (f / 0x20) % 2 }
  function C(f: byte): bit { (f / 0x10) % 2 }

  /** The four flag bits leave the low nibble of F alone. */
  predicate SameLowNibble(f: byte, g: byte)
  {
    f % 16 == g % 16
  }

  /** The byte whose low nibble is `lo` and whose flag bits are z, n, h, c. */
  function Pack(lo: int, z: bit, n: bit, h: bit, c: bit): (r: byte)
    requires 0 <= lo < 16
    ensures Z(r) == z && N(r) == n && H(r) == h && C(r) == c && r % 16 == lo
  {
    var r := lo + 16 * c + 32 * h + 64 * n + 128 * z;
    assert r / 16 == c + 2 * h + 4 * n + 8 * z;
    assert r / 32 == h + 2 * n + 4 * z;
    assert r / 64 == n + 2 * z;
    r
  }

  /** Every byte is the packing of its low nibble and its flags. */
  lemma Unpack(f: byte)
    ensures f == Pack(f % 16, Z(f), N(f), H(f), C(f))
  {
    Digits(f);
  }

  lemma Digits(f: byte)
    ensures f == f % 16 + 16 * C(f) + 32 * H(f) + 64 * N(f) + 128 * Z(f)
  {
    var a := f / 16;
    assert f == 16 * a + f % 16;
    assert f / 32 == a / 2;
    assert f / 64 == a / 4;
    assert f / 128 == a / 8;
  }

  /** Bits 4..7 of F, read through `Bit`, are the flags. */
  lemma FlagBit(f: byte, k: nat)
    requires 4 <= k < 8
    ensures Bit(f, k) == if k == 7 then Z(f) else if k == 6 then N(f) else if k == 5 then H(f) else C(f)
  {
    Pow2Table();
  }

  /** `_set_flag_z`: F with bit 7 replaced by v. */
  function SetZ(f: byte, v: bit): (r: byte)
    ensures Z(r) == v && N(r) == N(f) && H(r) == H(f) && C(r) == C(f)
    ensures SameLowNibble(r, f)
  {
    Pack(f % 16, v, N(f), H(f), C(f))
  }

  /** `_set_flag_n`: F with bit 6 replaced by v. */
  function SetN(f: byte, v: bit): (r: byte)
    ensures N(r) == v && Z(r) == Z(f) && H(r) == H(f) && C(r) == C(f)
    ensures SameLowNibble(r, f)
  {
    Pack(f % 16, Z(f), v, H(f), C(f))
  }

  /** `_set_flag_h`: F with bit 5 replaced by v. */
  function SetH(f: byte, v: bit): (r: byte)
    ensures H(r) == v && Z(r) == Z(f) && N(r) == N(f) && C(r) == C(f)
    ensures SameLowNibble(r, f)
  {
    Pack(f % 16, Z(f), N(f), v, C(f))
  }

  /** `_set_flag_c`: F with bit 4 replaced by v. */
  function SetC(f: byte, v: bit): (r: byte)
    ensures C(r) == v && Z(r) == Z(f) && N(r) == N(f) && H(r) == H(f)
    ensures SameLowNibble(r, f)
  {
    Pack(f % 16, Z(f), N(f), H(f), v)
  }

  /** F with all four flags replaced, its low nibble kept. */
  function Flags4(f: byte, z: bit, n: bit, h: bit, c: bit): (g: byte)
    ensures Z(g) == z && N(g) == n && H(g) == h && C(g) == c
    ensures SameLowNibble(g, f)
  {
    Pack(f % 16, z, n, h, c)
  }

  /** `Flags4` is the source's sequence `_set_flag_z; _set_flag_n;
      _set_flag_h; _set_flag_c`, the order C, Z, N, H of RLA, the order
      Z, C, N, H, and the six calls of the AND handlers (`_set_flags_alu`,
      then H set and C cleared). Shorter sequences follow from the lemmas
      below. */
  lemma Flags4IsSetters(f: byte, z: bit, n: bit, h: bit, c: bit)
    ensures Flags4(f, z, n, h, c) == SetC(SetH(SetN(SetZ(f, z), n), h), c)
    ensures Flags4(f, z, n, h, c) == SetH(SetN(SetZ(SetC(f, c), z), n), h)
    ensures Flags4(f, z, n, h, c) == SetH(SetN(SetC(SetZ(f, z), c), n), h)
    ensures Flags4(f, z, 0, 1, 0) == SetC(SetH(SetC(SetH(SetN(SetZ(f, z), 0), 0), 0), 1), 0)
  {
    FlagsDetermine(Flags4(f, z, n, h, c), SetC(SetH(SetN(SetZ(f, z), n), h), c));
    FlagsDetermine(Flags4(f, z, n, h, c), SetH(SetN(SetZ(SetC(f, c), z), n), h));
    FlagsDetermine(Flags4(f, z, n, h, c), SetH(SetN(SetC(SetZ(f, z), c), n), h));
    FlagsDetermine(Flags4(f, z, 0, 1, 0), SetC(SetH(SetC(SetH(SetN(SetZ(f, z), 0), 0), 0), 1), 0));
  }

  /** Setters of different flags commute, so the order of the calls in a
      handler does not matter. */
  lemma SettersCommute(f: byte, u: bit, v: bit)
    ensures SetZ(SetN(f, u), v) == SetN(SetZ(f, v), u)
    ensures SetZ(SetH(f, u), v) == SetH(SetZ(f, v), u)
    ensures SetZ(SetC(f, u), v) == SetC(SetZ(f, v), u)
    ensures SetN(SetH(f, u), v) == SetH(SetN(f, v), u)
    ensures SetN(SetC(f, u), v) == SetC(SetN(f, v), u)
    ensures SetH(SetC(f, u), v) == SetC(SetH(f, v), u)
  {
    FlagsDetermine(SetZ(SetN(f, u), v), SetN(SetZ(f, v), u));
    FlagsDetermine(SetZ(SetH(f, u), v), SetH(SetZ(f, v), u));
    FlagsDetermine(SetZ(SetC(f, u), v), SetC(SetZ(f, v), u));
    FlagsDetermine(SetN(SetH(f, u), v), SetH(SetN(f, v), u));
    FlagsDetermine(SetN(SetC(f, u), v), SetC(SetN(f, v), u));
    FlagsDetermine(SetH(SetC(f, u), v), SetC(SetH(f, v), u));
  }

  /** A second call of the same setter overrides the first. */
  lemma LastWriteWins(f: byte, u: bit, v: bit)
    ensures SetZ(SetZ(f, u), v) == SetZ(f, v)
    ensures SetN(SetN(f, u), v) == SetN(f, v)
    ensures SetH(SetH(f, u), v) == SetH(f, v)
    ensures SetC(SetC(f, u), v) == SetC(f, v)
  {
    FlagsDetermine(SetZ(SetZ(f, u), v), SetZ(f, v));
    FlagsDetermine(SetN(SetN(f, u), v), SetN(f, v));
    FlagsDetermine(SetH(SetH(f, u), v), SetH(f, v));
    FlagsDetermine(SetC(SetC(f, u), v), SetC(f, v));
  }

  /** Setting a flag to its current value changes nothing, so a handler
      that leaves a flag alone is `Flags4` with that flag's old value. */
  lemma SetterKeepsValue(f: byte)
    ensures SetZ(f, Z(f)) == f && SetN(f, N(f)) == f
    ensures SetH(f, H(f)) == f && SetC(f, C(f)) == f
  {
    FlagsDetermine(SetZ(f, Z(f)), f);
    FlagsDetermine(SetN(f, N(f)), f);
    FlagsDetermine(SetH(f, H(f)), f);
    FlagsDetermine(SetC(f, C(f)), f);
  }

  /** Two values of F with the same flags and the same low nibble are equal. */
  lemma FlagsDetermine(f: byte, g: byte)
    requires Z(f) == Z(g) && N(f) == N(g) && H(f) == H(g) && C(f) == C(g)
    requires SameLowNibble(f, g)
    ensures f == g
  {
    Unpack(f);
    Unpack(g);
  }

  // ---------------------------------------------------------------------
  // The setters are the source's mask-and-or.

  lemma SetZIsMask(f: byte, v: bit)
    ensures SetZ(f, v) == Or8(And8(f, 0x7F), v * 0x80)
  {
    var m := Or8(And8(f, 0x7F), v * 0x80);
    forall k | 0 <= k < 8
      ensures Bit(SetZ(f, v), k) == Bit(m, k)
    {
      SetZBit(f, v, k);
    }
    Pow2Table();
    BitsDetermine(SetZ(f, v), m, 8);
  }

  lemma SetZBit(f: byte, v: bit, k: nat)
    requires k < 8
    ensures Bit(SetZ(f, v), k) == Bit(Or8(And8(f, 0x7F), v * 0x80), k)
  {
    BitOr(And8(f, 0x7F), v * 0x80, 8, k);
    BitAnd(f, 0x7F, 8, k);
    MaskBits(k, 7, v);
    if k < 4 {
      LowBit(SetZ(f, v), k);
      LowBit(f, k);
    } else {
      FlagBit(SetZ(f, v), k);
      FlagBit(f, k);
    }
  }

  lemma SetNIsMask(f: byte, v: bit)
    ensures SetN(f, v) == Or8(And8(f, 0xBF), v * 0x40)
  {
    var m := Or8(And8(f, 0xBF), v * 0x40);
    forall k | 0 <= k < 8
      ensures Bit(SetN(f, v), k) == Bit(m, k)
    {
      SetNBit(f, v, k);
    }
    Pow2Table();
    BitsDetermine(SetN(f, v), m, 8);
  }

  lemma SetNBit(f: byte, v: bit, k: nat)
    requires k < 8
    ensures Bit(SetN(f, v), k) == Bit(Or8(And8(f, 0xBF), v * 0x40), k)
  {
    BitOr(And8(f, 0xBF), v * 0x40, 8, k);
    BitAnd(f, 0xBF, 8, k);
    MaskBits(k, 6, v);
    if k < 4 {
      LowBit(SetN(f, v), k);
      LowBit(f, k);
    } else {
      FlagBit(SetN(f, v), k);
      FlagBit(f, k);
    }
  }

  lemma SetHIsMask(f: byte, v: bit)
    ensures SetH(f, v) == Or8(And8(f, 0xDF), v * 0x20)
  {
    var m := Or8(And8(f, 0xDF), v * 0x20);
    forall k | 0 <= k < 8
      ensures Bit(SetH(f, v), k) == Bit(m, k)
    {
      SetHBit(f, v, k);
    }
    Pow2Table();
    BitsDetermine(SetH(f, v), m, 8);
  }

  lemma SetHBit(f: byte, v: bit, k: nat)
    requires k < 8
    ensures Bit(SetH(f, v), k) == Bit(Or8(And8(f, 0xDF), v * 0x20), k)
  {
    BitOr(And8(f, 0xDF), v * 0x20, 8, k);
    BitAnd(f, 0xDF, 8, k);
    MaskBits(k, 5, v);
    if k < 4 {
      LowBit(SetH(f, v), k);
      LowBit(f, k);
    } else {
      FlagBit(SetH(f, v), k);
      FlagBit(f, k);
    }
  }

  lemma SetCIsMask(f: byte, v: bit)
    ensures SetC(f, v) == Or8(And8(f, 0xEF), v * 0x10)
  {
    var m := Or8(And8(f, 0xEF), v * 0x10);
    forall k | 0 <= k < 8
      ensures Bit(SetC(f, v), k) == Bit(m, k)
    {
      SetCBit(f, v, k);
    }
    Pow2Table();
    BitsDetermine(SetC(f, v), m, 8);
  }

  lemma SetCBit(f: byte, v: bit, k: nat)
    requires k < 8
    ensures Bit(SetC(f, v), k) == Bit(Or8(And8(f, 0xEF), v * 0x10), k)
  {
    BitOr(And8(f, 0xEF), v * 0x10, 8, k);
    BitAnd(f, 0xEF, 8, k);
    MaskBits(k, 4, v);
    if k < 4 {
      LowBit(SetC(f, v), k);
      LowBit(f, k);
    } else {
      FlagBit(SetC(f, v), k);
      FlagBit(f, k);
    }
  }
}
