/** The C++ integer conversions the parser relies on, written out over
    unbounded integers. */
module CppInt {
  import opened LibModul

  /** `(int32_t)x`: the 32 bits of `x` read as two's complement. */
  function Int32Of(x: bv32): (r: int)
    ensures -0x8000_0000 <= r < 0x8000_0000
    ensures (r - x as int) % 0x1_0000_0000 == 0
    ensures r >= 0 <==> x as int < 0x8000_0000
  {
    var n := x as int;
    assert 0 <= n < 0x1_0000_0000;
    if n < 0x8000_0000 then n
    else
      assert (n - 0x1_0000_0000 - n) % 0x1_0000_0000 == 0;
      n - 0x1_0000_0000
  }

  /** C++ `a / b` on signed integers: the quotient truncated toward zero
      (Dafny's own `/` rounds toward negative infinity for a negative `a`). */
  function TruncDiv(a: int, b: int): (q: int)
    requires b > 0
    ensures a >= 0 ==> 0 <= q * b <= a < q * b + b
    ensures a < 0 ==> q * b - b < a <= q * b <= 0
    ensures -b < a < b ==> q == 0
  {
    if a >= 0 then
      DivBounds(a, b);
      a / b
    else
      DivBounds(-a, b);
      NegMul((-a) / b, b);
      -((-a) / b)
  }

  /** A truncated quotient of a dividend below `0x8000 * divisor` in magnitude
      lies in the 16-bit signed range. */
  lemma TruncDivInRange(x: int, divisor: nat)
    requires divisor > 0
    requires -0x8000 * divisor < x < 0x8000 * divisor
    ensures -0x8000 <= TruncDiv(x, divisor) < 0x8000
  {
    var q := TruncDiv(x, divisor);
    if q >= 0x8000 {
      MulMonotone(0x8000, q, divisor);
    } else if q < -0x8000 {
      MulMonotone(q, -0x8000 - 1, divisor);
    }
  }

  lemma MulMonotone(a: int, b: int, c: nat)
    requires a <= b
    ensures a * c <= b * c
  {
  }

  /** Euclidean division of a non-negative dividend rounds down. */
  lemma DivBounds(n: int, b: int)
    requires n >= 0 && b > 0
    ensures 0 <= (n / b) * b <= n < (n / b) * b + b
    ensures n < b ==> n / b == 0
  {
    assert n == (n / b) * b + n % b;
  }

  lemma NegMul(m: int, b: int)
    ensures (-m) * b == -(m * b)
  {
  }

  /** `(int16_t)x`: `x` reduced modulo 2^16 into the signed range. */
  function Int16Of(x: int): (r: Int16)
    ensures (r - x) % 0x1_0000 == 0
    ensures -0x8000 <= x < 0x8000 ==> r == x
  {
    var m := x % 0x1_0000;
    if m < 0x8000 then m else m - 0x1_0000
  }

  /** `(uint16_t)x`: the low sixteen bits of `x`. */
  function UInt16Of(x: bv32): (r: nat)
    ensures r < 0x1_0000
    ensures (x as int - r) % 0x1_0000 == 0
  {
    ModSplit(x as int);
    x as int % 0x1_0000
  }

  /** Removing the remainder leaves a multiple of 2^16. */
  lemma ModSplit(n: int)
    ensures (n - n % 0x1_0000) % 0x1_0000 == 0
  {
    assert n == (n / 0x1_0000) * 0x1_0000 + n % 0x1_0000;
    assert n - n % 0x1_0000 == (n / 0x1_0000) * 0x1_0000;
  }

  /** A sequence of bytes read as an unsigned big-endian number. */
  function BigEndian(s: seq<bv8>): nat
  {
    if s == [] then 0 else BigEndian(s[..|s| - 1]) * 256 + s[|s| - 1] as int
  }

  /** The big-endian value of four bytes, written out. */
  lemma BigEndianOfFour(s: seq<bv8>)
    requires |s| == 4
    ensures BigEndian(s) == s[0] as int * 0x100_0000 + s[1] as int * 0x1_0000 + s[2] as int * 0x100 + s[3] as int
  {
    assert s[..1][..0] == [];
    assert BigEndian(s[..1]) == s[0] as int;
    assert s[..2][..1] == s[..1];
    assert BigEndian(s[..2]) == s[0] as int * 0x100 + s[1] as int;
    assert s[..3][..2] == s[..2];
    assert BigEndian(s[..3]) == s[0] as int * 0x1_0000 + s[1] as int * 0x100 + s[2] as int;
  }

  /** `(b0 << 24) | (b1 << 16) | (b2 << 8) | b3` on bytes promoted to `int` and
      cast to `uint32_t`: the bytes side by side, most significant first. */
  function Word(b0: bv8, b1: bv8, b2: bv8, b3: bv8): (w: bv32)
    ensures (w >> 24) as bv8 == b0 && ((w >> 16) & 0xFF) as bv8 == b1
    ensures ((w >> 8) & 0xFF) as bv8 == b2 && (w & 0xFF) as bv8 == b3
  {
    (b0 as bv32 << 24) | (b1 as bv32 << 16) | (b2 as bv32 << 8) | b3 as bv32
  }

  /** The word is the unsigned big-endian value of its four bytes. */
  lemma WordValue(b0: bv8, b1: bv8, b2: bv8, b3: bv8)
    ensures Word(b0, b1, b2, b3) as int == BigEndian([b0, b1, b2, b3])
  {
    BigEndianOfFour([b0, b1, b2, b3]);
    assert Word(b0, b1, b2, b3) == (b0 as bv32 << 24) + (b1 as bv32 << 16) + (b2 as bv32 << 8) + b3 as bv32;
    SumValue(b0, b1, b2, b3);
  }

  lemma SumValue(b0: bv8, b1: bv8, b2: bv8, b3: bv8)
    ensures ((b0 as bv32 << 24) + (b1 as bv32 << 16) + (b2 as bv32 << 8) + b3 as bv32) as int
         == b0 as int * 0x100_0000 + b1 as int * 0x1_0000 + b2 as int * 0x100 + b3 as int
  {
  }
}
