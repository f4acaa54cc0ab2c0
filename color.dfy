/** Channel extractors for NeoPixel colour words (Color.py).
    A colour word is laid out GRB: green in bits 16-23, red in bits 8-15,
    blue in bits 0-7.  Python integers are unbounded two's-complement
    values, so `c & mask` keeps the selected bits of any int, negative ones
    included; `x % (2^k)` is exactly the low k bits of x in that sense
    (Dafny's `%` is Euclidean, so it never goes negative). */
module Color {

  /** 2^n. */
  function Pow2(n: nat): (p: nat)
    ensures p >= 1
  {
    if n == 0 then 1 else 2 * Pow2(n - 1)
  }

  /** Bit i of the two's-complement representation of c. */
  function Bit(c: int, i: nat): (b: int)
    ensures b == 0 || b == 1
  {
    (c / Pow2(i)) % 2
  }

  /** The n-bit field of c starting at bit lo, assembled bit by bit:
      the reference meaning of "bits lo .. lo+n-1 of c". */
  function Bits(c: int, lo: nat, n: nat): int
    decreases n
  {
    if n == 0 then 0 else Bit(c, lo) + 2 * Bits(c, lo + 1, n - 1)
  }

  /** `(c & (2^(lo+8) - 2^lo)) >> lo` on Python ints: the byte starting
      at bit lo, masked in place and shifted down (floor division). */
  function MaskShift(c: int, lo: nat): int
  {
    (c % Pow2(lo + 8) - c % Pow2(lo)) / Pow2(lo)
  }

  /** `RED(color) = (color & 0x0000FF00) >> 8`: byte 1 of the word. */
  function Red(color: int): (r: int)
    ensures 0 <= r < 256
    ensures r == Bits(color, 8, 8)
  {
    MaskShiftIsByte(color, 8);
    MaskShift(color, 8)
  }

  /** `GREEN(color) = (color & 0x00FF0000) >> 16`: byte 2 of the word. */
  function Green(color: int): (g: int)
    ensures 0 <= g < 256
    ensures g == Bits(color, 16, 8)
  {
    MaskShiftIsByte(color, 16);
    MaskShift(color, 16)
  }

  /** `BLUE(color) = (color & 0x000000FF) >> 0`: byte 0 of the word. */
  function Blue(color: int): (b: int)
    ensures 0 <= b < 256
    ensures b == Bits(color, 0, 8)
  {
    MaskShiftIsByte(color, 0);
    MaskShift(color, 0)
  }

  /** The GRB word for green g, red r and blue b. */
  function Pack(g: int, r: int, b: int): int
  {
    g * 0x1_0000 + r * 0x100 + b
  }

  // ---------------------------------------------------------------------
  // Euclidean division facts

  /** Division and remainder are determined by any decomposition
      x == d * k + m with 0 <= m < d. */
  lemma DivModUnique(x: int, d: int, k: int, m: int)
    requires d > 0 && 0 <= m < d && x == d * k + m
    ensures x / d == k && x % d == m
  {
    var q, r := x / d, x % d;
    assert d * (k - q) == r - m;
    if k - q >= 1 {
      MulMonotone(d, k - q);
    } else if k - q <= -1 {
      MulMonotone(d, q - k);
    }
  }

  lemma MulMonotone(d: int, j: int)
    requires d > 0 && j >= 1
    ensures d * j >= d
  {
    assert d * j == d * (j - 1) + d;
  }

  /** Dividing by a and then by b is dividing by a * b. */
  lemma DivDiv(c: int, a: int, b: int)
    requires a > 0 && b > 0
    ensures (c / a) / b == c / (a * b)
    ensures c % (a * b) == a * ((c / a) % b) + c % a
  {
    var q1, r1 := c / a, c % a;
    var q2, r2 := q1 / b, q1 % b;
    var ab := a * b;
    assert c == a * q1 + r1;
    assert q1 == b * q2 + r2;
    assert a * q1 == ab * q2 + a * r2 by {
      MulAssoc(a, b, q2, r2);
    }
    assert a * r2 + a <= ab by {
      MulAssoc(a, b, 0, r2);
      MulMonotone(a, b - r2);
      assert a * (b - r2) == ab - a * r2;
    }
    DivModUnique(c, ab, q2, a * r2 + r1);
  }

  lemma MulAssoc(a: int, b: int, q: int, r: int)
    ensures a * (b * q + r) == (a * b) * q + a * r
  {
  }

  /** The bit-by-bit field is the quotient/remainder window. */
  lemma {:induction false} BitsWindow(c: int, lo: nat, n: nat)
    ensures Bits(c, lo, n) == (c / Pow2(lo)) % Pow2(n)
    decreases n
  {
    if n == 0 {
    } else {
      BitsWindow(c, lo + 1, n - 1);
      var x := c / Pow2(lo);
      DivDiv(c, Pow2(lo), 2);
      assert Pow2(lo + 1) == Pow2(lo) * 2;
      assert c / Pow2(lo + 1) == x / 2;
      DivDiv(x, 2, Pow2(n - 1));
      assert Pow2(n) == 2 * Pow2(n - 1);
    }
  }

  /** The mask-and-shift expression is the byte starting at bit lo. */
  lemma MaskShiftIsByte(c: int, lo: nat)
    ensures 0 <= MaskShift(c, lo) < 256
    ensures MaskShift(c, lo) == Bits(c, lo, 8)
  {
    var p := Pow2(lo);
    Pow2Add(lo, 8);
    assert Pow2(8) == 256;
    DivDiv(c, p, 256);
    var byte := (c / p) % 256;
    assert c % Pow2(lo + 8) - c % p == p * byte;
    DivModUnique(p * byte, p, byte, 0);
    BitsWindow(c, lo, 8);
  }

  lemma {:induction false} Pow2Add(a: nat, b: nat)
    ensures Pow2(a + b) == Pow2(a) * Pow2(b)
    decreases b
  {
    if b > 0 {
      Pow2Add(a, b - 1);
      assert Pow2(a + b) == 2 * Pow2(a + b - 1);
    }
  }

  // ---------------------------------------------------------------------
  // Properties

  /** Packing three bytes GRB and extracting each channel gives them back. */
  lemma PackUnpack(g: int, r: int, b: int)
    requires 0 <= g < 256 && 0 <= r < 256 && 0 <= b < 256
    ensures Green(Pack(g, r, b)) == g
    ensures Red(Pack(g, r, b)) == r
    ensures Blue(Pack(g, r, b)) == b
  {
    var c := Pack(g, r, b);
    assert Pow2(8) == 0x100;
    assert Pow2(16) == 0x1_0000;
    assert Pow2(24) == 0x100_0000;
    DivModUnique(c, 0x100, g * 0x100 + r, b);
    DivModUnique(c, 0x1_0000, g, r * 0x100 + b);
    DivModUnique(c, 0x100_0000, 0, c);
    DivModUnique(r * 0x100, 0x100, r, 0);
    DivModUnique(g * 0x1_0000, 0x1_0000, g, 0);
  }

  /** Unpacking any word and packing its channels again gives back its low
      24 bits: the three channels are exactly bits 0-23 and nothing else. */
  lemma UnpackPack(c: int)
    ensures Pack(Green(c), Red(c), Blue(c)) == c % 0x100_0000
  {
    assert Pow2(0) == 1 && Pow2(8) == 0x100 && Pow2(16) == 0x1_0000 && Pow2(24) == 0x100_0000;
    DivDiv(c, 0x100, 0x100);
    DivDiv(c, 0x1_0000, 0x100);
    var b, m16, m24 := c % 0x100, c % 0x1_0000, c % 0x100_0000;
    var r, g := (c / 0x100) % 0x100, (c / 0x1_0000) % 0x100;
    assert m16 - b == 0x100 * r;
    assert m24 - m16 == 0x1_0000 * g;
    DivModUnique(0x100 * r, 0x100, r, 0);
    DivModUnique(0x1_0000 * g, 0x1_0000, g, 0);
    assert Red(c) == r;
    assert Green(c) == g;
    assert Blue(c) == b;
  }
}
