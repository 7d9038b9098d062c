/** The CPU's arithmetic, rotate, shift and bit helpers (cpu.py:110-274 and the
    inline ALU code of DAA, RLA, CPL, SCF, ADD HL and ADD SP).  In the source
    each helper reads A or F from `self`, sets flags and returns the new
    value; here each is a function from the operands and the old F to the
    new value and the new F. */
module Alu {
  import opened Bits
  import opened Flags

  datatype AluOut = AluOut(value: byte, f: byte)

  /** The result of a 16-bit addition: the new 16-bit value and the new F. */
  datatype WideOut = WideOut(value: word, f: byte)

  /** `_inc` (cpu.py:110-115). */
  function Inc(v: byte, f: byte): (r: AluOut)
    ensures r.value == if v == 255 then 0 else v + 1
    ensures Z(r.f) == B(r.value == 0) && N(r.f) == 0
    ensures H(r.f) == B(v % 16 == 15) && C(r.f) == C(f)
    ensures SameLowNibble(r.f, f)
  {
    var res := Low8(v + 1);
    AluOut(res, Flags4(f, B(res == 0), 0, B(v % 16 == 15), C(f)))
  }

  /** `_dec` (cpu.py:117-122). */
  function Dec(v: byte, f: byte): (r: AluOut)
    ensures r.value == if v == 0 then 255 else v - 1
    ensures Z(r.f) == B(r.value == 0) && N(r.f) == 1
    ensures H(r.f) == B(v % 16 == 0) && C(r.f) == C(f)
    ensures SameLowNibble(r.f, f)
  {
    var res := Low8(v - 1);
    AluOut(res, Flags4(f, B(res == 0), 1, B(v % 16 == 0), C(f)))
  }

  /** `_rlc` (cpu.py:140-147): rotate left, bit 7 goes to bit 0 and to C.
      `((v << 1) | carry) & 0xFF` keeps bits 0-6 of v, moved up one place,
      and puts the carry in the free bit 0. */
  function Rlc(v: byte, f: byte): (r: AluOut)
    ensures r.value % 2 == v / 128 && r.value / 2 == v % 128
    ensures C(r.f) == v / 128 && Z(r.f) == B(r.value == 0) && N(r.f) == 0 && H(r.f) == 0
    ensures SameLowNibble(r.f, f)
  {
    var carry := v / 128;
    var low := v % 128;
    RotateLeftDigits(v, low, carry);
    var res := 2 * low + carry;
    AluOut(res, Flags4(f, B(res == 0), 0, 0, carry))
  }

  /** A byte is bit 7 followed by bits 0-6; moving bits 0-6 up one place and
      putting bit 7 below them gives a byte again. */
  lemma RotateLeftDigits(v: byte, low: int, carry: int)
    requires low == v % 128 && carry == v / 128
    ensures 0 <= low < 128 && 0 <= carry < 2
    ensures (2 * low + carry) % 2 == carry && (2 * low + carry) / 2 == low
  {
  }

  /** `_rrc` (cpu.py:149-156): rotate right, bit 0 goes to bit 7 and to C. */
  function Rrc(v: byte, f: byte): (r: AluOut)
    ensures r.value / 128 == v % 2 && r.value % 128 == v / 2
    ensures C(r.f) == v % 2 && Z(r.f) == B(r.value == 0) && N(r.f) == 0 && H(r.f) == 0
    ensures SameLowNibble(r.f, f)
  {
    var carry := v % 2;
    var res := Low8(v / 2 + carry * 128);
    assert res == v / 2 + carry * 128;
    AluOut(res, Flags4(f, B(res == 0), 0, 0, carry))
  }

  /** `_rl` (cpu.py:158-166): a 9-bit rotate left through the carry. */
  function Rl(v: byte, f: byte): (r: AluOut)
    ensures r.value + 256 * C(r.f) == 2 * v + C(f)
    ensures Z(r.f) == B(r.value == 0) && N(r.f) == 0 && H(r.f) == 0
    ensures SameLowNibble(r.f, f)
  {
    var carry := C(f);
    var res := Low8(2 * v + carry);
    AluOut(res, Flags4(f, B(res == 0), 0, 0, v / 128))
  }

  /** `_rr` (cpu.py:168-176): a 9-bit rotate right through the carry. */
  function Rr(v: byte, f: byte): (r: AluOut)
    ensures 2 * r.value + C(r.f) == v + 256 * C(f)
    ensures Z(r.f) == B(r.value == 0) && N(r.f) == 0 && H(r.f) == 0
    ensures SameLowNibble(r.f, f)
  {
    var carry := C(f);
    var res := Low8(v / 2 + carry * 128);
    AluOut(res, Flags4(f, B(res == 0), 0, 0, v % 2))
  }

  /** `_sla` (cpu.py:178-185): shift left, bit 7 to C, zero into bit 0. */
  function Sla(v: byte, f: byte): (r: AluOut)
    ensures r.value + 256 * C(r.f) == 2 * v
    ensures Z(r.f) == B(r.value == 0) && N(r.f) == 0 && H(r.f) == 0
    ensures SameLowNibble(r.f, f)
  {
    var res := Low8(2 * v);
    AluOut(res, Flags4(f, B(res == 0), 0, 0, v / 128))
  }

  /** `_sra` (cpu.py:187-195): shift right keeping bit 7.  `msb = v & 0x80` is
      `(v / 128) * 128`; it shares no bit with `v >> 1`, so the OR is an
      addition (see `SraIsOr`). */
  function Sra(v: byte, f: byte): (r: AluOut)
    ensures r.value / 128 == v / 128 && r.value % 128 == v / 2
    ensures C(r.f) == v % 2 && Z(r.f) == B(r.value == 0) && N(r.f) == 0 && H(r.f) == 0
    ensures SameLowNibble(r.f, f)
  {
    var res := v / 2 + (v / 128) * 128;
    AluOut(res, Flags4(f, B(res == 0), 0, 0, v % 2))
  }

  /** `_srl` (cpu.py:197-204): shift right, zero into bit 7, bit 0 to C. */
  function Srl(v: byte, f: byte): (r: AluOut)
    ensures 2 * r.value + C(r.f) == v
    ensures Z(r.f) == B(r.value == 0) && N(r.f) == 0 && H(r.f) == 0
    ensures SameLowNibble(r.f, f)
  {
    var res := v / 2;
    AluOut(res, Flags4(f, B(res == 0), 0, 0, v % 2))
  }

  /** `_swap` (cpu.py:206-212): exchange the nibbles; C is cleared. */
  function Swap(v: byte, f: byte): (r: AluOut)
    ensures r.value % 16 == v / 16 && r.value / 16 == v % 16
    ensures Z(r.f) == B(v == 0) && N(r.f) == 0 && H(r.f) == 0 && C(r.f) == 0
    ensures SameLowNibble(r.f, f)
  {
    var hi := v / 16;
    var lo := v % 16;
    SwapDigits(v, hi, lo);
    var res := 16 * lo + hi;
    HexSplit(lo, hi);
    AluOut(res, Flags4(f, B(res == 0), 0, 0, 0))
  }

  /** The source's `((v << 4) | (v >> 4)) & 0xFF`: the two shifted halves
      share no bit, so the `|` is a sum, and the mask drops what `v << 4`
      pushed above bit 7, leaving the low nibble of v above its high one. */
  lemma SwapDigits(v: byte, hi: int, lo: int)
    requires hi == v / 16 && lo == v % 16
    ensures 0 <= hi < 16 && 0 <= lo < 16
    ensures (16 * v + hi) % 256 == 16 * lo + hi
    ensures v == 0 <==> 16 * lo + hi == 0
  {
    assert v == 16 * hi + lo;
    ByteSplit(hi, 16 * lo + hi);
  }

  /** The low byte of 256 * q + r. */
  lemma ByteSplit(q: int, r: int)
    requires 0 <= r < 256
    ensures (256 * q + r) % 256 == r
  {
  }

  /** `_bit` (cpu.py:214-218): Z is set when bit n of v is clear; C is kept. */
  function BitTest(n: nat, v: byte, f: byte): (g: byte)
    requires n < 8
    ensures Z(g) == 1 <==> Bit(v, n) == 0
    ensures N(g) == 0 && H(g) == 1 && C(g) == C(f)
    ensures SameLowNibble(g, f)
  {
    Flags4(f, B(Bit(v, n) == 0), 0, 1, C(f))
  }

  /** `_res` (cpu.py:220-223): `~(1 << n) & 0xFF` is 0xFF - 2^n. */
  function Res(n: nat, v: byte): (r: byte)
    requires n < 8
    ensures Bit(r, n) == 0
  {
    MaskBits(n, n, 0);
    BitAnd(v, 0xFF - Pow2(n), 8, n);
    And8(v, 0xFF - Pow2(n))
  }

  /** `_set` (cpu.py:225-226). */
  function Set(n: nat, v: byte): (r: byte)
    requires n < 8
    ensures Bit(r, n) == 1
  {
    MaskBits(n, n, 1);
    BitOr(v, Pow2(n), 8, n);
    Or8(v, Pow2(n))
  }

  /** `_add` (cpu.py:229-235) and the inline ADD A (0x87, 0xC6). */
  function Add(a: byte, v: byte, f: byte): (r: AluOut)
    ensures r.value + 256 * C(r.f) == a + v
    ensures Z(r.f) == B(r.value == 0) && N(r.f) == 0
    ensures H(r.f) == B(a % 16 + v % 16 >= 16)
    ensures SameLowNibble(r.f, f)
  {
    var res := a + v;
    AluOut(Low8(res), Flags4(f, B(Low8(res) == 0), 0, B(a % 16 + v % 16 > 15), B(res > 255)))
  }

  /** `_adc` (cpu.py:237-244) and the inline ADC A,n (0xCE). */
  function Adc(a: byte, v: byte, f: byte): (r: AluOut)
    ensures r.value + 256 * C(r.f) == a + v + C(f)
    ensures Z(r.f) == B(r.value == 0) && N(r.f) == 0
    ensures H(r.f) == B(a % 16 + v % 16 + C(f) >= 16)
    ensures SameLowNibble(r.f, f)
  {
    var carry := C(f);
    var res := a + v + carry;
    AluOut(Low8(res), Flags4(f, B(Low8(res) == 0), 0, B(a % 16 + v % 16 + carry > 15), B(res > 255)))
  }

  /** `_sub` (cpu.py:246-252) and the inline SUB n (0xD6). */
  function Sub(a: byte, v: byte, f: byte): (r: AluOut)
    ensures r.value - 256 * C(r.f) == a - v
    ensures Z(r.f) == B(r.value == 0) && N(r.f) == 1
    ensures H(r.f) == B(a % 16 < v % 16)
    ensures SameLowNibble(r.f, f)
  {
    var res := a - v;
    AluOut(Low8(res), Flags4(f, B(Low8(res) == 0), 1, B(a % 16 < v % 16), B(a < v)))
  }

  /** `_sbc` (cpu.py:254-261) and the inline SBC A,n (0xDE). */
  function Sbc(a: byte, v: byte, f: byte): (r: AluOut)
    ensures r.value - 256 * C(r.f) == a - v - C(f)
    ensures Z(r.f) == B(r.value == 0) && N(r.f) == 1
    ensures H(r.f) == B(a % 16 - v % 16 - C(f) < 0)
    ensures SameLowNibble(r.f, f)
  {
    var carry := C(f);
    var res := a - v - carry;
    AluOut(Low8(res), Flags4(f, B(Low8(res) == 0), 1, B(a % 16 - v % 16 - carry < 0), B(res < 0)))
  }

  /** `_cp` (cpu.py:263-268) and the inline CP (0xB9, 0xFE): the flags of a
      subtraction whose result is thrown away. */
  function Cp(a: byte, v: byte, f: byte): (g: byte)
    ensures Z(g) == B(a == v) && N(g) == 1
    ensures H(g) == B(a % 16 < v % 16) && C(g) == B(a < v)
    ensures SameLowNibble(g, f)
  {
    Flags4(f, B(a - v == 0), 1, B(a % 16 < v % 16), B(a < v))
  }

  /** AND: `a &= v` then `_set_flags_alu` (cpu.py:270-274), H set, C clear. */
  function And(a: byte, v: byte, f: byte): (r: AluOut)
    ensures Z(r.f) == B(r.value == 0) && N(r.f) == 0 && H(r.f) == 1 && C(r.f) == 0
    ensures SameLowNibble(r.f, f)
    ensures forall k :: 0 <= k < 8 ==> Bit(r.value, k) == B(Bit(a, k) == 1 && Bit(v, k) == 1)
  {
    BytewiseBits(a, v);
    var res := And8(a, v);
    AluOut(res, Flags4(f, B(res == 0), 0, 1, 0))
  }

  /** XOR: `a ^= v` then `_set_flags_alu`. */
  function Xor(a: byte, v: byte, f: byte): (r: AluOut)
    ensures Z(r.f) == B(r.value == 0) && N(r.f) == 0 && H(r.f) == 0 && C(r.f) == 0
    ensures SameLowNibble(r.f, f)
    ensures forall k :: 0 <= k < 8 ==> Bit(r.value, k) == B(Bit(a, k) != Bit(v, k))
  {
    BytewiseBits(a, v);
    var res := Xor8(a, v);
    AluOut(res, Flags4(f, B(res == 0), 0, 0, 0))
  }

  /** OR: `a |= v` then `_set_flags_alu`. */
  function Or(a: byte, v: byte, f: byte): (r: AluOut)
    ensures Z(r.f) == B(r.value == 0) && N(r.f) == 0 && H(r.f) == 0 && C(r.f) == 0
    ensures SameLowNibble(r.f, f)
    ensures forall k :: 0 <= k < 8 ==> Bit(r.value, k) == B(Bit(a, k) == 1 || Bit(v, k) == 1)
  {
    BytewiseBits(a, v);
    var res := Or8(a, v);
    AluOut(res, Flags4(f, B(res == 0), 0, 0, 0))
  }

  /** RLA (0x17, the definition at cpu.py:1261-1269): rotate A left through
      the carry; unlike `_rl`, Z is always cleared. */
  function Rla(a: byte, f: byte): (r: AluOut)
    ensures r.value + 256 * C(r.f) == 2 * a + C(f)
    ensures Z(r.f) == 0 && N(r.f) == 0 && H(r.f) == 0
    ensures SameLowNibble(r.f, f)
  {
    var carry := C(f);
    var res := Low8(2 * a + carry);
    AluOut(res, Flags4(f, 0, 0, 0, a / 128))
  }

  /** CPL (0x2F, cpu.py:1486-1491): `~a & 0xFF`, where Python's `~a` is `-a - 1`. */
  function Cpl(a: byte, f: byte): (r: AluOut)
    ensures r.value == 0xFF - a
    ensures N(r.f) == 1 && H(r.f) == 1 && Z(r.f) == Z(f) && C(r.f) == C(f)
    ensures SameLowNibble(r.f, f)
  {
    var x: int := a;
    assert (-x - 1) % 256 == 0xFF - a;
    AluOut((-x - 1) % 256, Flags4(f, Z(f), 1, 1, C(f)))
  }

  /** SCF (0x37, cpu.py:987-992). */
  function Scf(f: byte): (g: byte)
    ensures C(g) == 1 && N(g) == 0 && H(g) == 0 && Z(g) == Z(f)
    ensures SameLowNibble(g, f)
  {
    Flags4(f, Z(f), 0, 0, 1)
  }

  /** `_ccf` (cpu.py:134-138), CCF (0x3F). */
  function Ccf(f: byte): (g: byte)
    ensures C(g) + C(f) == 1 && N(g) == 0 && H(g) == 0 && Z(g) == Z(f)
    ensures SameLowNibble(g, f)
  {
    Flags4(f, Z(f), 0, 0, 1 - C(f))
  }

  /** DAA (0x27, the definition at cpu.py:1276-1300): decimal adjust of A after
      a BCD addition (N clear) or subtraction (N set). */
  function Daa(a: byte, f: byte): (r: AluOut)
    ensures Z(r.f) == B(r.value == 0) && H(r.f) == 0 && N(r.f) == N(f)
    ensures C(f) == 1 ==> C(r.f) == 1
    ensures N(f) == 1 ==> C(r.f) == C(f)
    ensures SameLowNibble(r.f, f)
  {
    var res := Low8(DaaAdjust(a, N(f), H(f), C(f)));
    AluOut(res, Flags4(f, B(res == 0), N(f), 0, if DaaCarries(a, N(f), C(f)) then 1 else C(f)))
  }

  /** DAA's condition for adding 0x60, which also sets C. */
  predicate DaaCarries(a: byte, n: bit, c: bit)
  {
    n == 0 && (c == 1 || a > 0x99)
  }

  /** The value DAA computes before `a &= 0xFF`, from A and the N, H and C
      flags it read. */
  function DaaAdjust(a: byte, n: bit, h: bit, c: bit): (adj: int)
    ensures -0x66 <= adj <= 0xFF + 0x66
    ensures n == 0 ==> adj >= a
    ensures n == 1 ==> adj <= a
  {
    var a1 :=
      if n == 0 then (if DaaCarries(a, n, c) then a + 0x60 else a)
      else (if c == 1 then a - 0x60 else a);
    if n == 0 then (if h == 1 || a1 % 16 > 9 then a1 + 6 else a1)
    else (if h == 1 then a1 - 6 else a1)
  }

  /** ADD HL,rr (0x09, 0x19, 0x29, 0x39): a 16-bit addition; H is the carry
      out of bit 11, Z is left alone.  `rr` is SP for 0x39, which the source
      never masks, so it is any int here and `& 0xFFF` is `% 0x1000`. */
  function AddHL(hl: word, rr: int, f: byte): (r: WideOut)
    ensures 0 <= rr < 0x1_0000 ==> r.value + 0x1_0000 * C(r.f) == hl + rr
    ensures N(r.f) == 0 && H(r.f) == B(hl % 0x1000 + rr % 0x1000 > 0xFFF) && Z(r.f) == Z(f)
    ensures SameLowNibble(r.f, f)
  {
    var res := hl + rr;
    assert 0 <= rr < 0x1_0000 ==> res % 0x1_0000 == if res > 0xFFFF then res - 0x1_0000 else res;
    WideOut(res % 0x1_0000, Flags4(f, Z(f), 0, B(hl % 0x1000 + rr % 0x1000 > 0xFFF), B(res > 0xFFFF)))
  }

  /** The signed reading of an offset byte (`if offset > 127: offset -= 256`). */
  function Signed(n: byte): (s: int)
    ensures -128 <= s < 128 && s % 256 == n
  {
    if n > 127 then n - 256 else n
  }

  /** SP + e as ADD SP,e (0xE8) and LD HL,SP+e (0xF8) compute it: Z and N
      cleared, H and C the carries out of bits 3 and 7 of the low byte. */
  function AddSpOffset(sp: int, n: byte, f: byte): (r: WideOut)
    ensures r.value == (sp + Signed(n)) % 0x1_0000
    ensures Z(r.f) == 0 && N(r.f) == 0
    ensures H(r.f) == B(sp % 16 + n % 16 > 15) && C(r.f) == B(sp % 256 + n > 255)
    ensures SameLowNibble(r.f, f)
  {
    var offset := Signed(n);
    var res := sp + offset;
    assert offset % 16 == n % 16 && offset % 256 == n;
    WideOut(res % 0x1_0000, Flags4(f, 0, 0, B(sp % 16 + offset % 16 > 15), B(sp % 256 + offset % 256 > 255)))
  }

  // ---------------------------------------------------------------------
  // Inverses and equivalences.

  /** INC and DEC undo each other on every byte, whatever F is. */
  lemma IncDecInverse(v: byte, f: byte, g: byte)
    ensures Dec(Inc(v, f).value, g).value == v
    ensures Inc(Dec(v, f).value, g).value == v
  {
    var i, d := Inc(v, f).value, Dec(v, f).value;
    if v == 255 {
      assert i == 0 && d == 254;
    } else if v == 0 {
      assert i == 1 && d == 255;
    } else {
      assert i == v + 1 && d == v - 1;
    }
  }

  /** RRC undoes RLC and RLC undoes RRC. */
  lemma RotateInverse(v: byte, f: byte, g: byte)
    ensures Rrc(Rlc(v, f).value, g).value == v
    ensures Rlc(Rrc(v, f).value, g).value == v
  {
  }

  /** RR undoes RL, carry included: the pair (value, C) is a 9-bit rotation. */
  lemma RotateThroughCarryInverse(v: byte, f: byte)
    ensures Rr(Rl(v, f).value, Rl(v, f).f).value == v
    ensures C(Rr(Rl(v, f).value, Rl(v, f).f).f) == C(f)
    ensures Rl(Rr(v, f).value, Rr(v, f).f).value == v
    ensures C(Rl(Rr(v, f).value, Rr(v, f).f).f) == C(f)
  {
    var l := Rl(v, f);
    var lr := Rr(l.value, l.f);
    SameDigits(lr.value, C(lr.f), v, C(f), 2);
    var r := Rr(v, f);
    var rl := Rl(r.value, r.f);
    SameDigits(C(rl.f), rl.value, C(f), v, 256);
  }

  /** A number written as `base * hi + lo`, with `lo` below the base, has
      only one such form. */
  lemma SameDigits(hi: int, lo: int, hi': int, lo': int, base: int)
    requires base == 2 || base == 256
    requires 0 <= lo < base && 0 <= lo' < base
    requires base * hi + lo == base * hi' + lo'
    ensures hi == hi' && lo == lo'
  {
    if base == 2 {
      assert 2 * (hi - hi') == lo' - lo;
    } else {
      assert 256 * (hi - hi') == lo' - lo;
    }
  }

  /** SWAP is an involution. */
  lemma SwapTwice(v: byte, f: byte, g: byte)
    ensures Swap(Swap(v, f).value, g).value == v
  {
  }

  /** ADD undoes SUB and SUB undoes ADD, modulo 256. */
  lemma AddSubInverse(a: byte, v: byte, f: byte, g: byte)
    ensures Add(Sub(a, v, f).value, v, g).value == a
    ensures Sub(Add(a, v, f).value, v, g).value == a
  {
  }

  /** With the carry clear, ADC is ADD and SBC is SUB, flags included. */
  lemma CarryClear(a: byte, v: byte, f: byte)
    requires C(f) == 0
    ensures Adc(a, v, f) == Add(a, v, f)
    ensures Sbc(a, v, f) == Sub(a, v, f)
  {
  }

  /** CP sets exactly the flags SUB would. */
  lemma CpIsSubFlags(a: byte, v: byte, f: byte)
    ensures Cp(a, v, f) == Sub(a, v, f).f
  {
    FlagsDetermine(Cp(a, v, f), Sub(a, v, f).f);
  }

  /** `Sra` is the source's `(v >> 1) | (v & 0x80)`. */
  lemma SraIsOr(v: byte, f: byte)
    ensures Sra(v, f).value == Or8(v / 2, And8(v, 0x80))
  {
    var r := Sra(v, f).value;
    var m := Or8(v / 2, And8(v, 0x80));
    forall k | 0 <= k < 8
      ensures Bit(r, k) == Bit(m, k)
    {
      SraBit(v, f, k);
    }
    Pow2Table();
    BitsDetermine(r, m, 8);
  }

  lemma SraBit(v: byte, f: byte, k: nat)
    requires k < 8
    ensures Bit(Sra(v, f).value, k) == Bit(Or8(v / 2, And8(v, 0x80)), k)
  {
    BitOr(v / 2, And8(v, 0x80), 8, k);
    BitAnd(v, 0x80, 8, k);
    MaskBits(k, 7, 1);
    Pow2Table();
    var r := Sra(v, f).value;
    assert r == v / 2 + 128 * (v / 128);
    if k < 7 {
      BitAddHigh(v / 2, v / 128, 7, k);
    } else {
      assert (v / 2) / 128 == 0 && r / 128 == v / 128;
    }
  }

  /** RES n clears bit n and keeps every other bit. */
  lemma ResBits(n: nat, v: byte, k: nat)
    requires n < 8 && k < 8
    ensures Bit(Res(n, v), k) == if k == n then 0 else Bit(v, k)
  {
    MaskBits(k, n, 0);
    BitAnd(v, 0xFF - Pow2(n), 8, k);
  }

  /** SET n sets bit n and keeps every other bit. */
  lemma SetBits(n: nat, v: byte, k: nat)
    requires n < 8 && k < 8
    ensures Bit(Set(n, v), k) == if k == n then 1 else Bit(v, k)
  {
    MaskBits(k, n, 1);
    BitOr(v, Pow2(n), 8, k);
  }

  /** SET n after RES n is SET n, RES n after SET n is RES n, and SET n of a
      byte whose bit n is already set leaves it alone. */
  lemma ResSetAbsorb(n: nat, v: byte)
    requires n < 8
    ensures Set(n, Res(n, v)) == Set(n, v)
    ensures Res(n, Set(n, v)) == Res(n, v)
    ensures Bit(v, n) == 1 ==> Set(n, v) == v
    ensures Bit(v, n) == 0 ==> Res(n, v) == v
  {
    Pow2Table();
    forall k | 0 <= k < 8
      ensures Bit(Set(n, Res(n, v)), k) == Bit(Set(n, v), k)
      ensures Bit(Res(n, Set(n, v)), k) == Bit(Res(n, v), k)
      ensures Bit(v, n) == 1 ==> Bit(Set(n, v), k) == Bit(v, k)
      ensures Bit(v, n) == 0 ==> Bit(Res(n, v), k) == Bit(v, k)
    {
      SetBits(n, Res(n, v), k);
      SetBits(n, v, k);
      ResBits(n, v, k);
      ResBits(n, Set(n, v), k);
    }
    BitsDetermine(Set(n, Res(n, v)), Set(n, v), 8);
    BitsDetermine(Res(n, Set(n, v)), Res(n, v), 8);
    if Bit(v, n) == 1 {
      BitsDetermine(Set(n, v), v, 8);
    } else {
      BitsDetermine(Res(n, v), v, 8);
    }
  }

  /** AND A and OR A leave A alone; XOR A clears it and sets Z. */
  lemma SelfOperand(a: byte, f: byte)
    ensures And(a, a, f).value == a && Or(a, a, f).value == a
    ensures Xor(a, a, f).value == 0 && Z(Xor(a, a, f).f) == 1
  {
    Pow2Table();
    forall k | 0 <= k < 8
      ensures Bit(And8(a, a), k) == Bit(a, k) && Bit(Or8(a, a), k) == Bit(a, k)
      ensures Bit(Xor8(a, a), k) == Bit(0, k)
    {
      BitAnd(a, a, 8, k);
      BitOr(a, a, 8, k);
      BitXor(a, a, 8, k);
    }
    BitsDetermine(And8(a, a), a, 8);
    BitsDetermine(Or8(a, a), a, 8);
    BitsDetermine(Xor8(a, a), 0, 8);
  }

  // ---------------------------------------------------------------------
  // DAA on binary-coded decimal operands.

  /** Both nibbles of x are decimal digits. */
  predicate IsBcd(x: byte)
  {
    x % 16 <= 9 && x / 16 <= 9
  }

  /** The number 0..99 a BCD byte stands for. */
  function BcdValue(x: byte): (d: nat)
    requires IsBcd(x)
    ensures d < 100
  {
    10 * (x / 16) + x % 16
  }

  /** The adjustment after a BCD addition: with the flags ADD leaves, DAA
      turns the binary sum 16 * hi + lo of two BCD bytes (hi and lo the sums
      of their digits) into the BCD form of 10 * hi + lo modulo 100. */
  lemma DaaAdjustAfterAdd(hi: int, lo: int)
    requires 0 <= hi <= 18 && 0 <= lo <= 18
    ensures var sum := 16 * hi + lo;
            var adj := DaaAdjust(Low8(sum), 0, B(lo >= 16), B(sum > 255));
            var m := (10 * hi + lo) % 100;
            Low8(adj) == 16 * (m / 10) + m % 10
            && (DaaCarries(Low8(sum), 0, B(sum > 255)) || sum > 255 <==> 10 * hi + lo >= 100)
  {
    if lo < 10 {
      if hi < 10 {
        DaaAddCaseDigits(hi, lo);
      } else {
        DaaAddCaseHigh(hi, lo);
      }
    } else {
      if hi < 9 {
        DaaAddCaseLow(hi, lo);
      } else {
        DaaAddCaseBoth(hi, lo);
      }
    }
  }

  /** `DaaAdjustAfterAdd` with no decimal carry at all. */
  lemma DaaAddCaseDigits(hi: int, lo: int)
    requires 0 <= lo <= 18 && lo < 10 && 0 <= hi < 10
    ensures var sum := 16 * hi + lo;
            var adj := DaaAdjust(Low8(sum), 0, B(lo >= 16), B(sum > 255));
            var m := (10 * hi + lo) % 100;
            Low8(adj) == 16 * (m / 10) + m % 10
            && (DaaCarries(Low8(sum), 0, B(sum > 255)) || sum > 255 <==> 10 * hi + lo >= 100)
  {
    var sum := 16 * hi + lo;
    var s := Low8(sum);
    var d := 10 * hi + lo;
    var c := B(sum > 255);
    var up := DaaCarries(s, 0, c);
    var adj := DaaAdjust(s, 0, B(lo >= 16), c);
    assert !up && adj == 16 * hi + lo;
    var m := d % 100;
    assert m == d && m / 10 == hi && m % 10 == lo;
  }

  /** `DaaAdjustAfterAdd` with a decimal carry out of the high digit only. */
  lemma DaaAddCaseHigh(hi: int, lo: int)
    requires 0 <= lo <= 18 && lo < 10 && 10 <= hi <= 18
    ensures var sum := 16 * hi + lo;
            var adj := DaaAdjust(Low8(sum), 0, B(lo >= 16), B(sum > 255));
            var m := (10 * hi + lo) % 100;
            Low8(adj) == 16 * (m / 10) + m % 10
            && (DaaCarries(Low8(sum), 0, B(sum > 255)) || sum > 255 <==> 10 * hi + lo >= 100)
  {
    var sum := 16 * hi + lo;
    var s := Low8(sum);
    var c := B(sum > 255);
    assert DaaCarries(s, 0, c);
    // 0x60 on top of the binary sum is 16 * (hi + 6) + lo, less 256 if it carried.
    var q := if sum > 255 then hi - 10 else hi + 6;
    assert s as int + 0x60 == 16 * q + lo;
    HexSplit(q, lo);
    assert DaaAdjust(s, 0, B(lo >= 16), c) == 16 * q + lo;
    assert Low8(16 * q + lo) == 16 * (hi - 10) + lo;
    DecSplit(hi - 10, lo);
    Mod100(10 * hi + lo);
  }

  /** `DaaAdjustAfterAdd` with a decimal carry out of the low digit only. */
  lemma DaaAddCaseLow(hi: int, lo: int)
    requires 0 <= lo <= 18 && 10 <= lo && 0 <= hi < 9
    ensures var sum := 16 * hi + lo;
            var adj := DaaAdjust(Low8(sum), 0, B(lo >= 16), B(sum > 255));
            var m := (10 * hi + lo) % 100;
            Low8(adj) == 16 * (m / 10) + m % 10
            && (DaaCarries(Low8(sum), 0, B(sum > 255)) || sum > 255 <==> 10 * hi + lo >= 100)
  {
    var sum := 16 * hi + lo;
    var s := Low8(sum);
    var c := B(sum > 255);
    assert s == sum && !DaaCarries(s, 0, c);
    if lo < 16 {
      HexSplit(hi, lo);
    }
    assert DaaAdjust(s, 0, B(lo >= 16), c) == 16 * (hi + 1) + (lo - 10);
    DecSplit(hi + 1, lo - 10);
    Mod100(10 * hi + lo);
  }

  /** `DaaAdjustAfterAdd` with decimal carries out of both digits. */
  lemma DaaAddCaseBoth(hi: int, lo: int)
    requires 0 <= lo <= 18 && 10 <= lo && 9 <= hi <= 18
    ensures var sum := 16 * hi + lo;
            var adj := DaaAdjust(Low8(sum), 0, B(lo >= 16), B(sum > 255));
            var m := (10 * hi + lo) % 100;
            Low8(adj) == 16 * (m / 10) + m % 10
            && (DaaCarries(Low8(sum), 0, B(sum > 255)) || sum > 255 <==> 10 * hi + lo >= 100)
  {
    var sum := 16 * hi + lo;
    var s := Low8(sum);
    var c := B(sum > 255);
    assert DaaCarries(s, 0, c);
    var q := if sum > 255 then hi - 10 else hi + 6;
    assert s as int + 0x60 == 16 * q + lo;
    if lo < 16 {
      HexSplit(q, lo);
    }
    assert DaaAdjust(s, 0, B(lo >= 16), c) == 16 * q + lo + 6;
    assert Low8(16 * q + lo + 6) == 16 * (hi - 9) + (lo - 10);
    DecSplit(hi - 9, lo - 10);
    Mod100(10 * hi + lo);
  }

  /** The two hexadecimal digits of 16 * q + r. */
  lemma HexSplit(q: int, r: int)
    requires 0 <= r < 16
    ensures (16 * q + r) % 16 == r && (16 * q + r) / 16 == q
  {
  }

  /** The two decimal digits of 10 * q + r. */
  lemma DecSplit(q: int, r: int)
    requires 0 <= r < 10
    ensures (10 * q + r) % 10 == r && (10 * q + r) / 10 == q
  {
  }

  /** The adjustment after a BCD subtraction, hi and lo now the differences
      of the digits. */
  lemma DaaAdjustAfterSub(hi: int, lo: int)
    requires -9 <= hi <= 9 && -9 <= lo <= 9
    ensures var diff := 16 * hi + lo;
            var adj := DaaAdjust(Low8(diff), 1, B(lo < 0), B(diff < 0));
            var d := (10 * hi + lo) % 100;
            Low8(adj) == 16 * (d / 10) + d % 10
            && (diff < 0 <==> 10 * hi + lo < 0)
  {
    if lo >= 0 {
      if hi >= 0 {
        DaaSubCase(hi, lo, false, false);
      } else {
        DaaSubCase(hi, lo, false, true);
      }
    } else {
      if hi >= 1 {
        DaaSubCase(hi, lo, true, false);
      } else {
        DaaSubCase(hi, lo, true, true);
      }
    }
  }

  /** One case of `DaaAdjustAfterSub`: `low` says whether the low digits
      borrowed, `high` whether the whole difference is negative. */
  lemma DaaSubCase(hi: int, lo: int, low: bool, high: bool)
    requires -9 <= hi <= 9 && -9 <= lo <= 9
    requires low <==> lo < 0
    requires high <==> (if low then hi < 1 else hi < 0)
    ensures var diff := 16 * hi + lo;
            var adj := DaaAdjust(Low8(diff), 1, B(lo < 0), B(diff < 0));
            var d := (10 * hi + lo) % 100;
            Low8(adj) == 16 * (d / 10) + d % 10
            && (diff < 0 <==> 10 * hi + lo < 0)
  {
    var diff := 16 * hi + lo;
    var s := Low8(diff);
    var e := 10 * hi + lo;
    var d := e % 100;
    var adj := DaaAdjust(s, 1, B(lo < 0), B(diff < 0));
    Mod100(e);
    if !low && !high {
      assert adj == 16 * hi + lo;
      DecSplit(hi, lo);
    } else if !low {
      assert s == diff + 256 && adj == 16 * (hi + 10) + lo;
      DecSplit(hi + 10, lo);
    } else if !high {
      assert adj == 16 * (hi - 1) + (lo + 10);
      DecSplit(hi - 1, lo + 10);
    } else {
      assert s == diff + 256 && adj == 16 * (hi + 9) + (lo + 10);
      DecSplit(hi + 9, lo + 10);
    }
  }

  /** A two-digit sum or difference modulo 100. */
  lemma Mod100(e: int)
    requires -100 <= e < 200
    ensures e % 100 == if e < 0 then e + 100 else if e >= 100 then e - 100 else e
  {
  }

  /** DAA's value and carry, in terms of `DaaAdjust` and `DaaCarries`. */
  lemma DaaParts(a: byte, f: byte)
    ensures Daa(a, f).value == Low8(DaaAdjust(a, N(f), H(f), C(f)))
    ensures C(Daa(a, f).f) == if DaaCarries(a, N(f), C(f)) then 1 else C(f)
  {
  }

  /** ADD's value and flags, in terms of the binary sum. */
  lemma AddParts(a: byte, v: byte, f: byte)
    ensures Add(a, v, f).value == Low8(a + v) && C(Add(a, v, f).f) == B(a + v > 255)
    ensures N(Add(a, v, f).f) == 0 && H(Add(a, v, f).f) == B(a % 16 + v % 16 >= 16)
  {
  }

  /** SUB's value and flags, in terms of the binary difference. */
  lemma SubParts(a: byte, v: byte, f: byte)
    ensures Sub(a, v, f).value == Low8(a - v) && C(Sub(a, v, f).f) == B(a < v)
    ensures N(Sub(a, v, f).f) == 1 && H(Sub(a, v, f).f) == B(a % 16 < v % 16)
  {
  }

  /** A byte written 16 * q + r with decimal digits q and r is BCD for 10 * q + r. */
  lemma BcdDigits(x: byte, q: int, r: int)
    requires 0 <= q < 10 && 0 <= r < 10 && x == 16 * q + r
    ensures IsBcd(x) && BcdValue(x) == 10 * q + r
  {
  }

  /** DAA applied to the binary sum of two BCD bytes and the flags of that
      addition. */
  lemma DaaOfBcdSum(x: byte, y: byte, a: byte, g: byte)
    requires IsBcd(x) && IsBcd(y)
    requires a == Low8(x + y) && C(g) == B(x + y > 255)
    requires N(g) == 0 && H(g) == B(x % 16 + y % 16 >= 16)
    ensures IsBcd(Daa(a, g).value)
    ensures BcdValue(Daa(a, g).value) == (BcdValue(x) + BcdValue(y)) % 100
    ensures C(Daa(a, g).f) == B(BcdValue(x) + BcdValue(y) >= 100)
  {
    var hi, lo := BcdSumDigits(x, y);
    var m := (BcdValue(x) + BcdValue(y)) % 100;
    DaaParts(a, g);
    DaaAdjustAfterAdd(hi, lo);
    assert Daa(a, g).value == 16 * (m / 10) + m % 10;
    BcdDigits(Daa(a, g).value, m / 10, m % 10);
  }

  /** The digit sums of two BCD bytes. */
  lemma BcdSumDigits(x: byte, y: byte) returns (hi: int, lo: int)
    requires IsBcd(x) && IsBcd(y)
    ensures 0 <= hi <= 18 && 0 <= lo <= 18 && lo == x % 16 + y % 16
    ensures x + y == 16 * hi + lo && BcdValue(x) + BcdValue(y) == 10 * hi + lo
  {
    hi, lo := x / 16 + y / 16, x % 16 + y % 16;
  }

  /** The digit differences of two BCD bytes. */
  lemma BcdDifferenceDigits(x: byte, y: byte) returns (hi: int, lo: int)
    requires IsBcd(x) && IsBcd(y)
    ensures -9 <= hi <= 9 && -9 <= lo <= 9 && lo == x % 16 - y % 16
    ensures x - y == 16 * hi + lo && BcdValue(x) - BcdValue(y) == 10 * hi + lo
  {
    hi, lo := x / 16 - y / 16, x % 16 - y % 16;
  }

  /** DAA applied to the binary difference of two BCD bytes and the flags
      of that subtraction. */
  lemma DaaOfBcdDifference(x: byte, y: byte, a: byte, g: byte)
    requires IsBcd(x) && IsBcd(y)
    requires a == Low8(x - y) && C(g) == B(x < y)
    requires N(g) == 1 && H(g) == B(x % 16 < y % 16)
    ensures IsBcd(Daa(a, g).value)
    ensures BcdValue(Daa(a, g).value) == (BcdValue(x) - BcdValue(y)) % 100
    ensures C(Daa(a, g).f) == B(BcdValue(x) < BcdValue(y))
  {
    var hi, lo := BcdDifferenceDigits(x, y);
    var m := (BcdValue(x) - BcdValue(y)) % 100;
    DaaParts(a, g);
    DaaAdjustAfterSub(hi, lo);
    assert Daa(a, g).value == 16 * (m / 10) + m % 10;
    BcdDigits(Daa(a, g).value, m / 10, m % 10);
  }

  /** ADD of two BCD bytes followed by DAA is decimal addition: A holds the
      last two digits of the sum and C says whether it reached 100. */
  lemma DaaAfterAdd(x: byte, y: byte, f: byte)
    requires IsBcd(x) && IsBcd(y)
    ensures var s := Add(x, y, f);
            var d := Daa(s.value, s.f);
            IsBcd(d.value) && BcdValue(d.value) == (BcdValue(x) + BcdValue(y)) % 100
            && C(d.f) == B(BcdValue(x) + BcdValue(y) >= 100)
  {
    AddParts(x, y, f);
    DaaOfBcdSum(x, y, Add(x, y, f).value, Add(x, y, f).f);
  }

  /** SUB of two BCD bytes followed by DAA is decimal subtraction: A holds
      the difference modulo 100 and C says whether it borrowed. */
  lemma DaaAfterSub(x: byte, y: byte, f: byte)
    requires IsBcd(x) && IsBcd(y)
    ensures var s := Sub(x, y, f);
            var d := Daa(s.value, s.f);
            IsBcd(d.value) && BcdValue(d.value) == (BcdValue(x) - BcdValue(y)) % 100
            && C(d.f) == B(BcdValue(x) < BcdValue(y))
  {
    SubParts(x, y, f);
    DaaOfBcdDifference(x, y, Sub(x, y, f).value, Sub(x, y, f).f);
  }
}
