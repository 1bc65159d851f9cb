/** C `float` values (IEEE 754 binary32), held as their three fields.
    The engine's script decimals and the COLLADA reader's numbers are
    floats; the model needs their zero test, the `==` of C, their bit
    pattern, and the two conversions the source applies between `int` and
    `float`. Float arithmetic is not modelled. */
module Floats {
  import opened Machine

  const FRACTION_LIMIT: nat := 0x80_0000

  datatype Float32 = Float32(negative: bool, exponent: nat, fraction: nat)

  /** A well-formed binary32: an 8-bit biased exponent and a 23-bit fraction. */
  type float = f: Float32 | f.exponent < 0x100 && f.fraction < FRACTION_LIMIT
    witness Float32(false, 0, 0)

  const Zero: float := Float32(false, 0, 0)
  const One: float := Float32(false, 127, 0)

  /** Holds for +0.0 and -0.0, the two values C compares equal to `0.0f`. */
  predicate IsZero(f: float)
  {
    f.exponent == 0 && f.fraction == 0
  }

  predicate IsNaN(f: float)
  {
    f.exponent == 0xFF && f.fraction != 0
  }

  /** The C `==` on floats: NaN equals nothing, and the two zeros are equal. */
  predicate Equal(a: float, b: float)
  {
    !IsNaN(a) && !IsNaN(b) && (a == b || (IsZero(a) && IsZero(b)))
  }

  lemma EqualProperties(a: float, b: float, c: float)
    ensures Equal(a, b) ==> Equal(b, a)
    ensures Equal(a, b) && Equal(b, c) ==> Equal(a, c)
    ensures Equal(a, a) <==> !IsNaN(a)
    ensures Equal(a, b) ==> (IsZero(a) <==> IsZero(b))
  {
  }

  /** The bit pattern a float occupies in memory. */
  function ToBits(f: float): (u: uint32)
  {
    (if f.negative then TWO_TO_31 else 0) + f.exponent * FRACTION_LIMIT + f.fraction
  }

  /** The float whose bit pattern is `u`. */
  function FromBits(u: uint32): (f: float)
    ensures ToBits(f) == u
  {
    Float32(u >= TWO_TO_31, (u / FRACTION_LIMIT) % 0x100, u % FRACTION_LIMIT)
  }

  lemma FromToBits(f: float)
    ensures FromBits(ToBits(f)) == f
  {
    var u := ToBits(f);
    var s := if f.negative then 0x100 else 0;
    assert u == (s + f.exponent) * FRACTION_LIMIT + f.fraction;
    assert u / FRACTION_LIMIT == s + f.exponent;
  }

  function Pow2(n: nat): (r: nat)
    ensures r >= 1
  {
    if n == 0 then 1 else 2 * Pow2(n - 1)
  }

  lemma {:induction false} Pow2Add(a: nat, b: nat)
    ensures Pow2(a) * Pow2(b) == Pow2(a + b)
  {
    if a > 0 {
      Pow2Add(a - 1, b);
    }
  }

  lemma {:induction false} Pow2Monotone(a: nat, b: nat)
    requires a < b
    ensures Pow2(a) < Pow2(b)
  {
    if b > a + 1 {
      Pow2Monotone(a, b - 1);
    }
  }

  /** The position of the highest set bit of a positive number. */
  function Log2(m: nat): (e: nat)
    requires m >= 1
    ensures Pow2(e) <= m < Pow2(e + 1)
  {
    if m == 1 then 0 else 1 + Log2(m / 2)
  }

  lemma MultiplyCancel(a: int, b: int, d: int)
    requires d >= 1
    requires a * d < b * d
    ensures a < b
  {
    assert (b - a) * d > 0;
  }

  lemma MultiplyLess(a: int, b: int, p: int)
    requires a < b && p >= 1
    ensures a * p < b * p
  {
    assert b * p - a * p == (b - a) * p;
  }

  lemma DivisionBounds(m: nat, d: nat, lo: nat, hi: nat)
    requires d >= 1
    requires lo * d <= m < hi * d
    ensures lo <= m / d < hi
  {
    var q := m / d;
    assert m == q * d + m % d;
    MultiplyCancel(lo, q + 1, d);
    MultiplyCancel(q, hi, d);
  }

  lemma Pow2Constants()
    ensures Pow2(8) == 0x100
    ensures Pow2(16) == 0x1_0000
    ensures Pow2(23) == FRACTION_LIMIT
    ensures Pow2(24) == 0x100_0000
    ensures Pow2(31) == TWO_TO_31
  {
    assert Pow2(4) == 16 by {
      assert Pow2(1) == 2;
      assert Pow2(2) == 4;
      assert Pow2(3) == 8;
    }
    assert Pow2(8) == 0x100 by { Pow2Add(4, 4); }
    Pow2Add(8, 8);
    Pow2Add(16, 8);
    assert Pow2(23) == FRACTION_LIMIT;
    Pow2Add(24, 7);
    assert Pow2(7) == 128 by {
      Pow2Add(4, 3);
      assert Pow2(3) == 8;
    }
  }

  lemma FractionFacts(m: int, E: int, P: int)
    requires 1 <= E <= m < 2 * E && P >= 1
    ensures 0 <= (m - E) * P < E * P
    ensures E * P + (m - E) * P == m * P
  {
    MultiplyLess(m - E, E, P);
  }

  lemma Pow2Split(e: nat)
    requires e <= 23
    ensures Pow2(e) * Pow2(23 - e) == FRACTION_LIMIT
    ensures Pow2(e + 1) == 2 * Pow2(e)
  {
    Pow2Add(e, 23 - e);
    Pow2Constants();
  }

  /** A magnitude `m` with highest bit `e` below 24 is exactly
      representable: its bits below the highest, shifted up to fill the
      23-bit fraction. */
  function ExactFraction(m: nat, e: nat): (r: nat)
    requires e <= 23 && Pow2(e) <= m < Pow2(e + 1)
    ensures r < FRACTION_LIMIT
    ensures FRACTION_LIMIT + r == m * Pow2(23 - e)
  {
    Pow2Split(e);
    FractionFacts(m, Pow2(e), Pow2(23 - e));
    (m - Pow2(e)) * Pow2(23 - e)
  }

  function ExactFloat(negative: bool, m: nat, e: nat): (f: float)
    requires e <= 23 && Pow2(e) <= m < Pow2(e + 1)
    ensures f.exponent == e + 127
  {
    Float32(negative, e + 127, ExactFraction(m, e))
  }

  /** A magnitude `m` with highest bit `e` from 24 to 31: the low `e - 23`
      bits are rounded off, to nearest, ties to even. */
  function RoundedFloat(negative: bool, m: nat, e: nat): (f: float)
    requires 24 <= e <= 31 && Pow2(e) <= m < Pow2(e + 1)
    ensures 127 <= f.exponent <= 160
  {
    var shift: nat := e - 23;
    var q := m / Pow2(shift);
    var r := m % Pow2(shift);
    var half := Pow2(shift - 1);
    var rounded := if r > half || (r == half && q % 2 == 1) then q + 1 else q;
    assert FRACTION_LIMIT <= q < 2 * FRACTION_LIMIT by {
      Pow2Add(23, shift);
      Pow2Add(24, shift);
      Pow2Constants();
      DivisionBounds(m, Pow2(shift), Pow2(23), Pow2(24));
    }
    if rounded == 2 * FRACTION_LIMIT then Float32(negative, e + 128, 0)
    else Float32(negative, e + 127, rounded - FRACTION_LIMIT)
  }

  lemma Log2Of32Bits(m: nat)
    requires 1 <= m <= TWO_TO_31
    ensures Log2(m) <= 31
  {
    Pow2Constants();
    if Log2(m) >= 32 {
      Pow2Monotone(31, Log2(m));
    }
  }

  /** The conversion `(float)i` of a C `int`, rounding to nearest, ties to
      even. */
  function IntToFloat(i: int32): (f: float)
    ensures IsZero(f) <==> i == 0
    ensures f.negative <==> i < 0
    ensures !IsNaN(f)
  {
    if i == 0 then Zero
    else
      var m: nat := if i < 0 then -(i as int) else i;
      Log2Of32Bits(m);
      var e := Log2(m);
      if e <= 23 then ExactFloat(i < 0, m, e) else RoundedFloat(i < 0, m, e)
  }

  lemma ScaleUpBound(e: nat, sig: nat)
    requires 23 <= e <= 30 && sig < 0x100_0000
    ensures sig * Pow2(e - 23) < TWO_TO_31
  {
    Pow2Constants();
    Pow2Add(24, e - 23);
    MultiplyLess(sig, Pow2(24), Pow2(e - 23));
    if e + 1 < 31 {
      Pow2Monotone(e + 1, 31);
    }
  }

  lemma ScaleDownBound(e: nat, sig: nat)
    requires e < 23 && sig < 0x100_0000
    ensures 0 <= sig / Pow2(23 - e) < TWO_TO_31
  {
    Pow2Constants();
    Pow2Add(e + 1, 23 - e);
    DivisionBounds(sig, Pow2(23 - e), 0, Pow2(e + 1));
    Pow2Monotone(e + 1, 31);
  }

  /** The integer part of `1.fraction * 2^e`. */
  function Magnitude(e: nat, fraction: nat): (mag: nat)
    requires e <= 30 && fraction < FRACTION_LIMIT
    ensures mag < TWO_TO_31
  {
    var sig: nat := FRACTION_LIMIT + fraction;
    if e >= 23 then
      ScaleUpBound(e, sig);
      sig * Pow2(e - 23)
    else
      ScaleDownBound(e, sig);
      sig / Pow2(23 - e)
  }

  /** The conversion `(int)f` of a C float, truncating toward zero. A value
      out of the `int` range (and NaN) gives `INT_MIN`, as the x86 conversion
      instruction does; C leaves that case undefined. */
  function FloatToInt(f: float): (r: int32)
    ensures IsZero(f) ==> r == 0
  {
    if f.exponent < 127 then 0
    else if f.exponent >= 127 + 31 then -TWO_TO_31
    else
      var mag := Magnitude(f.exponent - 127, f.fraction);
      if f.negative then -(mag as int) else mag
  }

  lemma DivideProduct(m: nat, p: nat)
    requires p >= 1
    ensures (m * p) / p == m
  {
    DivisionBounds(m * p, p, m, m + 1);
  }

  lemma ExactFloatToInt(negative: bool, m: nat, e: nat)
    requires e <= 23 && Pow2(e) <= m < Pow2(e + 1)
    ensures FloatToInt(ExactFloat(negative, m, e)) as int == if negative then -(m as int) else m
  {
    var frac := ExactFraction(m, e);
    var p := Pow2(23 - e);
    var sig := FRACTION_LIMIT + frac;
    assert Magnitude(e, frac) == m by {
      if e == 23 {
        assert p == 1;
        assert Magnitude(e, frac) == sig * Pow2(0);
      } else {
        DivideProduct(m, p);
        assert Magnitude(e, frac) == sig / p;
      }
    }
  }

  /** Integers of at most 24 significant bits survive the trip through a
      float: `(int)(float)i == i`. */
  lemma {:induction false} IntFloatRoundTrip(i: int32)
    requires -0x100_0000 < i < 0x100_0000
    ensures FloatToInt(IntToFloat(i)) == i
  {
    if i != 0 {
      var m: nat := if i < 0 then -(i as int) else i;
      Log2Of32Bits(m);
      var e := Log2(m);
      assert e <= 23 by {
        Pow2Constants();
        if e >= 24 {
          Pow2Monotone(24, e);
        }
      }
      ExactFloatToInt(i < 0, m, e);
    }
  }
}
