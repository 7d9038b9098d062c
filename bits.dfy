/** Bytes, words and the bitwise operators the emulator applies to them.
    Every register and memory cell of the emulator holds a Python int that is
    kept in 0..255 by masking; here that is the subset type `byte`.  Python's
    `&`, `|` and `^` on such ints are defined below bit by bit, and the lemmas
    say what each operator does to every bit of its result. */
module Bits {

  type byte = x: int | 0 <= x < 0x100
  type word = x: int | 0 <= x < 0x1_0000
  type bit = x: int | 0 <= x < 2

  /** The int form of a Python bool, as `_set_flag_z(result == 0)` uses it. */
  function B(b: bool): (r: bit)
    ensures r == 1 <==> b
  {
    if b then 1 else 0
  }

  /** Python's `x & 0xFF` for the sums and differences of bytes the CPU
      forms, written as the wrap-around it amounts to. */
  function Low8(x: int): (r: byte)
    requires -0x100 <= x < 0x200
    ensures r == x % 0x100
  {
    if x < 0 then x + 0x100 else if x > 0xFF then x - 0x100 else x
  }

  function Pow2(k: nat): (r: nat)
    ensures r > 0
  {
    if k == 0 then 1 else 2 * Pow2(k - 1)
  }

  /** Bit k of x: Python's `(x >> k) & 1`. */
  function Bit(x: nat, k: nat): bit
  {
    (x / Pow2(k)) % 2
  }

  /** Bitwise AND of the low n bits of x and y. */
  function AndN(x: nat, y: nat, n: nat): (r: nat)
    ensures r < Pow2(n)
  {
    if n == 0 then 0
    else 2 * AndN(x / 2, y / 2, n - 1) + (if x % 2 == 1 && y % 2 == 1 then 1 else 0)
  }

  /** Bitwise OR of the low n bits of x and y. */
  function OrN(x: nat, y: nat, n: nat): (r: nat)
    ensures r < Pow2(n)
  {
    if n == 0 then 0
    else 2 * OrN(x / 2, y / 2, n - 1) + (if x % 2 == 1 || y % 2 == 1 then 1 else 0)
  }

  /** Bitwise exclusive OR of the low n bits of x and y. */
  function XorN(x: nat, y: nat, n: nat): (r: nat)
    ensures r < Pow2(n)
  {
    if n == 0 then 0
    else 2 * XorN(x / 2, y / 2, n - 1) + (if x % 2 != y % 2 then 1 else 0)
  }

  /** Python's `x & y` on two bytes. */
  function And8(x: byte, y: byte): byte
  {
    AndN(x, y, 8)
  }

  /** Python's `x | y` on two bytes. */
  function Or8(x: byte, y: byte): byte
  {
    OrN(x, y, 8)
  }

  /** Python's `x ^ y` on two bytes. */
  function Xor8(x: byte, y: byte): byte
  {
    XorN(x, y, 8)
  }

  // ---------------------------------------------------------------------
  // Division facts that let a proof move from bit k of x to bit k-1 of x/2.

  lemma {:induction false} MulAtLeast(t: int, d: int)
    requires t >= 1 && d > 0
    ensures t * d >= d
  {
    if t > 1 {
      MulAtLeast(t - 1, d);
      assert t * d == (t - 1) * d + d;
    }
  }

  lemma DivUnique(x: int, d: int, q: int, r: int)
    requires d > 0 && 0 <= r < d && x == q * d + r
    ensures x / d == q
  {
    var q', r' := x / d, x % d;
    assert q * d - q' * d == r' - r;
    assert (q - q') * d == q * d - q' * d;
    if q > q' {
      MulAtLeast(q - q', d);
    } else if q < q' {
      MulAtLeast(q' - q, d);
    }
  }

  lemma DivTwice(x: nat, p: nat)
    requires p > 0
    ensures x / (2 * p) == (x / 2) / p
  {
    var q, r := (x / 2) / p, (x / 2) % p;
    assert x / 2 == q * p + r;
    assert x == q * (2 * p) + (2 * r + x % 2);
    DivUnique(x, 2 * p, q, 2 * r + x % 2);
  }

  /** Dividing by p and then by 2 is dividing by 2 * p. */
  lemma DivSwap(x: nat, p: nat)
    requires p > 0
    ensures (x / p) / 2 == x / (2 * p)
  {
    var q, r := (x / p) / 2, (x / p) % 2;
    assert x == p * (x / p) + x % p;
    assert p * (x / p) == (2 * p) * q + p * r;
    assert 0 <= p * r + x % p < 2 * p;
    DivUnique(x, 2 * p, q, p * r + x % p);
  }

  lemma BitShift(x: nat, k: nat)
    requires k > 0
    ensures Bit(x, k) == Bit(x / 2, k - 1)
  {
    DivTwice(x, Pow2(k - 1));
  }

  // ---------------------------------------------------------------------
  // What the operators do to each bit.

  lemma {:induction false} BitAnd(x: nat, y: nat, n: nat, k: nat)
    requires k < n
    ensures Bit(AndN(x, y, n), k) == B(Bit(x, k) == 1 && Bit(y, k) == 1)
  {
    var r := AndN(x, y, n);
    var rest := AndN(x / 2, y / 2, n - 1);
    assert r == 2 * rest + (if x % 2 == 1 && y % 2 == 1 then 1 else 0);
    if k == 0 {
      assert Pow2(0) == 1;
      assert Bit(r, 0) == r % 2 && Bit(x, 0) == x % 2 && Bit(y, 0) == y % 2;
    } else {
      assert r / 2 == rest;
      BitShift(r, k);
      BitShift(x, k);
      BitShift(y, k);
      BitAnd(x / 2, y / 2, n - 1, k - 1);
    }
  }

  lemma {:induction false} BitOr(x: nat, y: nat, n: nat, k: nat)
    requires k < n
    ensures Bit(OrN(x, y, n), k) == B(Bit(x, k) == 1 || Bit(y, k) == 1)
  {
    var r := OrN(x, y, n);
    var rest := OrN(x / 2, y / 2, n - 1);
    assert r == 2 * rest + (if x % 2 == 1 || y % 2 == 1 then 1 else 0);
    if k == 0 {
      assert Pow2(0) == 1;
      assert Bit(r, 0) == r % 2 && Bit(x, 0) == x % 2 && Bit(y, 0) == y % 2;
    } else {
      assert r / 2 == rest;
      BitShift(r, k);
      BitShift(x, k);
      BitShift(y, k);
      BitOr(x / 2, y / 2, n - 1, k - 1);
    }
  }

  lemma {:induction false} BitXor(x: nat, y: nat, n: nat, k: nat)
    requires k < n
    ensures Bit(XorN(x, y, n), k) == B(Bit(x, k) != Bit(y, k))
  {
    var r := XorN(x, y, n);
    var rest := XorN(x / 2, y / 2, n - 1);
    assert r == 2 * rest + (if x % 2 != y % 2 then 1 else 0);
    if k == 0 {
      assert Pow2(0) == 1;
      assert Bit(r, 0) == r % 2 && Bit(x, 0) == x % 2 && Bit(y, 0) == y % 2;
    } else {
      assert r / 2 == rest;
      BitShift(r, k);
      BitShift(x, k);
      BitShift(y, k);
      BitXor(x / 2, y / 2, n - 1, k - 1);
    }
  }

  /** Python's `&`, `|` and `^` on two bytes act bit by bit. */
  lemma BytewiseBits(x: byte, y: byte)
    ensures forall k :: 0 <= k < 8 ==> Bit(And8(x, y), k) == B(Bit(x, k) == 1 && Bit(y, k) == 1)
    ensures forall k :: 0 <= k < 8 ==> Bit(Or8(x, y), k) == B(Bit(x, k) == 1 || Bit(y, k) == 1)
    ensures forall k :: 0 <= k < 8 ==> Bit(Xor8(x, y), k) == B(Bit(x, k) != Bit(y, k))
  {
    forall k | 0 <= k < 8
      ensures Bit(And8(x, y), k) == B(Bit(x, k) == 1 && Bit(y, k) == 1)
      ensures Bit(Or8(x, y), k) == B(Bit(x, k) == 1 || Bit(y, k) == 1)
      ensures Bit(Xor8(x, y), k) == B(Bit(x, k) != Bit(y, k))
    {
      BitAnd(x, y, 8, k);
      BitOr(x, y, 8, k);
      BitXor(x, y, 8, k);
    }
  }

  lemma Pow2Table()
    ensures Pow2(0) == 1 && Pow2(1) == 2 && Pow2(2) == 4 && Pow2(3) == 8
    ensures Pow2(4) == 16 && Pow2(5) == 32 && Pow2(6) == 64 && Pow2(7) == 128
    ensures Pow2(8) == 256
  {
  }

  /** Every bit of 0 is clear. */
  lemma ZeroBit(k: nat)
    ensures Bit(0, k) == 0
  {
  }

  /** The four low bits of a byte are those of its low nibble. */
  lemma LowBit(x: byte, k: nat)
    requires k < 4
    ensures Bit(x, k) == Bit(x % 16, k)
  {
    assert Pow2(4) == 16 by { Pow2Table(); }
    assert x == x % 16 + Pow2(4) * (x / 16);
    BitAddHigh(x % 16, x / 16, 4, k);
  }

  /** The eight bits of a byte, written out. */
  lemma ByteBits(x: byte, k: nat)
    requires k < 8
    ensures Bit(x, k) == if k == 0 then x % 2 else if k == 1 then x / 2 % 2
                         else if k == 2 then x / 4 % 2 else if k == 3 then x / 8 % 2
                         else if k == 4 then x / 16 % 2 else if k == 5 then x / 32 % 2
                         else if k == 6 then x / 64 % 2 else x / 128 % 2
  {
    Pow2Table();
  }

  /** Bit j of 2^n is set exactly when j == n. */
  lemma {:induction false} BitOfPow2(n: nat, j: nat)
    ensures Bit(Pow2(n), j) == B(j == n)
  {
    if j == 0 {
      assert Pow2(0) == 1;
      if n > 0 {
        assert Pow2(n) == 2 * Pow2(n - 1);
      }
    } else {
      BitShift(Pow2(n), j);
      if n > 0 {
        assert Pow2(n) / 2 == Pow2(n - 1);
        BitOfPow2(n - 1, j - 1);
      } else {
        assert Pow2(n) / 2 == 0;
        assert Bit(0, j - 1) == 0;
      }
    }
  }

  /** A number below 2^n is determined by its n low bits. */
  lemma {:induction false} BitsDetermine(x: nat, y: nat, n: nat)
    requires x < Pow2(n) && y < Pow2(n)
    requires forall k :: 0 <= k < n ==> Bit(x, k) == Bit(y, k)
    ensures x == y
  {
    if n > 0 {
      assert Bit(x, 0) == Bit(y, 0);
      forall k | 0 <= k < n - 1
        ensures Bit(x / 2, k) == Bit(y / 2, k)
      {
        BitShift(x, k + 1);
        BitShift(y, k + 1);
      }
      BitsDetermine(x / 2, y / 2, n - 1);
    }
  }

  /** Bit k of the byte mask that clears bit j. */
  lemma MaskClears(k: nat, j: nat)
    requires k < 8 && j < 8
    ensures Pow2(j) <= 0xFF && Bit(0xFF - Pow2(j), k) == B(k != j)
  {
    if j < 4 {
      MaskClearsLow(k, j);
    } else {
      MaskClearsHigh(k, j);
    }
  }

  /** `MaskClears` for the masks of bits 0-3. */
  lemma MaskClearsLow(k: nat, j: nat)
    requires k < 8 && j < 4
    ensures Pow2(j) <= 0xFF && Bit(0xFF - Pow2(j), k) == B(k != j)
  {
    Pow2Table();
    if j == 0 { ByteBits(0xFE, k); }
    else if j == 1 { ByteBits(0xFD, k); }
    else if j == 2 { ByteBits(0xFB, k); }
    else { ByteBits(0xF7, k); }
  }

  /** `MaskClears` for the masks of bits 4-7. */
  lemma MaskClearsHigh(k: nat, j: nat)
    requires k < 8 && 4 <= j < 8
    ensures Pow2(j) <= 0xFF && Bit(0xFF - Pow2(j), k) == B(k != j)
  {
    Pow2Table();
    if j == 4 { ByteBits(0xEF, k); }
    else if j == 5 { ByteBits(0xDF, k); }
    else if j == 6 { ByteBits(0xBF, k); }
    else { ByteBits(0x7F, k); }
  }

  /** Bit k of the byte mask that clears bit j, and of v shifted to bit j. */
  lemma MaskBits(k: nat, j: nat, v: bit)
    requires k < 8 && j < 8
    ensures Pow2(j) <= 0xFF && Bit(0xFF - Pow2(j), k) == B(k != j)
    ensures Bit(v * Pow2(j), k) == if k == j then v else 0
  {
    MaskClears(k, j);
    if v == 0 {
      assert Bit(0, k) == 0;
    } else {
      BitOfPow2(j, k);
    }
  }

  /** Adding a multiple of 2^j leaves the bits below j alone. */
  lemma {:induction false} BitAddHigh(x: nat, t: nat, j: nat, k: nat)
    requires k < j
    ensures Bit(x + Pow2(j) * t, k) == Bit(x, k)
  {
    var m := Pow2(j - 1) * t;
    assert Pow2(j) * t == 2 * m;
    if k > 0 {
      BitShift(x + 2 * m, k);
      BitShift(x, k);
      assert (x + 2 * m) / 2 == x / 2 + m;
      BitAddHigh(x / 2, t, j - 1, k - 1);
    }
  }
}
