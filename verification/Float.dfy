/** float32 and float64 by their bits, and the conversions between them. */
module Float {
  import opened Common
  import opened Varint

  const EXP32: nat := 0x80_0000
  const EXP64: nat := 0x10_0000_0000_0000
  const SIGN32: nat := 0x8000_0000
  const SIGN64: nat := 0x8000_0000_0000_0000

  /** The bits a float32 significand lacks: 2^29. */
  const CUT: nat := 0x2000_0000

  /** What makes a NaN quiet. */
  const QUIET32: nat := 0x40_0000

  /** The position of the highest bit of n. */
  function HighBit(n: nat): nat {
    if n <= 1 then 0 else 1 + HighBit(n / 2)
  }

  /** n / unit, rounded to the nearest, ties to even. */
  function Nearest(n: nat, unit: nat): (r: nat)
    requires unit > 0
    ensures n / unit <= r <= n / unit + 1
    ensures n % unit == 0 ==> r == n / unit
  {
    var q, over := n / unit, n % unit;
    if 2 * over > unit || (2 * over == unit && q % 2 == 1) then q + 1 else q
  }

  /** No whole multiple of unit is closer to n, and of two as close it is the even one. */
  lemma NearestIsNearest(n: nat, unit: nat)
    requires unit > 0
    ensures 2 * Nearest(n, unit) * unit <= 2 * n + unit && 2 * n <= 2 * Nearest(n, unit) * unit + unit
    ensures 2 * Nearest(n, unit) * unit == 2 * n + unit || 2 * n == 2 * Nearest(n, unit) * unit + unit ==>
      Nearest(n, unit) % 2 == 0
  {
    var q, over := n / unit, n % unit;
    Parts(n, unit);
    assert 2 * q * unit == 2 * (q * unit);
    assert 2 * (q + 1) * unit == 2 * (q * unit) + 2 * unit;
  }

  // ---- without the sign --------------------------------------------------------------------

  function Quiet(mantissa: nat): nat {
    if mantissa >= QUIET32 then mantissa else mantissa + QUIET32
  }

  /** float64(x), of a float32 that is not negative: exponents move by 896, subnormals become normal, NaNs quiet. */
  function Widened(x: nat): (r: nat)
    requires x < SIGN32
  {
    var e, m := x / EXP32, x % EXP32;
    if e == 255 then 2047 * EXP64 + (if m == 0 then 0 else Quiet(m)) * CUT
    else if e > 0 then x * CUT + 896 * EXP64
    else if m == 0 then 0
    else (HighBit(m) + 873) * EXP64 + m * Pow2(52 - Min(HighBit(m), 52))
  }

  function Min(a: nat, b: nat): nat { if a < b then a else b }

  /** float32(x), of a float64 that is not negative: rounded, too large is infinity. */
  function Narrowed(x: nat): (r: nat)
    requires x < SIGN64
  {
    var e, m := x / EXP64, x % EXP64;
    if e == 2047 then 255 * EXP32 + (if m == 0 then 0 else Quiet(m / CUT))
    else if e > 896 then Min(Nearest(x - 896 * EXP64, CUT), 255 * EXP32)
    else if e > 0 then Nearest(EXP64 + m, Pow2(926 - e))
    else 0
  }

  // ---- powers of two --------------------------------------------------------------------------

  lemma {:induction false} Pow2Sum(a: nat, b: nat)
    ensures Pow2(a + b) == Pow2(a) * Pow2(b)
  {
    if a > 0 {
      Pow2Sum(a - 1, b);
    }
  }

  lemma Pow2Values()
    ensures Pow2(23) == EXP32 && Pow2(29) == CUT && Pow2(52) == EXP64 && Pow2(30) == 2 * CUT
  {
    assert Pow2(6) == 64;
    Pow2Sum(6, 6);
    Pow2Sum(12, 11);
    Pow2Sum(23, 6);
    Pow2Sum(23, 29);
  }

  lemma {:induction false} HighBitBounds(n: nat)
    requires n > 0
    ensures Pow2(HighBit(n)) <= n < 2 * Pow2(HighBit(n))
  {
    if n > 1 {
      HighBitBounds(n / 2);
    }
  }

  lemma {:induction false} HighBitIs(n: nat, h: nat)
    requires Pow2(h) <= n < 2 * Pow2(h)
    ensures HighBit(n) == h
  {
    if h > 0 {
      HighBitIs(n / 2, h - 1);
    }
  }

  lemma {:induction false} Pow2Grows(a: nat, b: nat)
    requires a <= b
    ensures Pow2(a) <= Pow2(b)
  {
    Pow2Sum(a, b - a);
  }

  lemma Product(a: nat, b: nat, unit: nat)
    requires a <= b
    ensures a * unit <= b * unit
  {
  }

  lemma Cancelled(a: nat, b: nat, unit: nat)
    requires a * unit < b * unit
    ensures a < b
  {
    if b <= a {
      Product(b, a, unit);
    }
  }

  lemma Parts(x: nat, unit: nat)
    requires unit > 0
    ensures (x / unit) * unit + x % unit == x && x % unit < unit
  {
  }

  lemma Apart(x: nat, unit: nat, q: nat, r: nat)
    requires unit > 0 && x == q * unit + r && r < unit
    ensures x / unit == q && x % unit == r
  {
    Parts(x, unit);
    var d := x / unit;
    assert (d + 1) * unit == d * unit + unit && (q + 1) * unit == q * unit + unit;
    Cancelled(d, q + 1, unit);
    Cancelled(q, d + 1, unit);
  }

  lemma QuotientBelow(n: nat, unit: nat, bound: nat)
    requires unit > 0 && n < bound * unit
    ensures n / unit < bound
  {
    Parts(n, unit);
    Cancelled(n / unit, bound, unit);
  }

  // ---- which float64 are float32 ----------------------------------------------------------------

  /** Not negative and a float32: few enough bits for its exponent, infinite, or a quiet NaN of few bits. */
  predicate Exact(x: nat) {
    var e, m := x / EXP64, x % EXP64;
    if e == 2047 then m == 0 || (m % CUT == 0 && m / CUT >= QUIET32)
    else if 897 <= e <= 1150 then m % CUT == 0
    else if 874 <= e <= 896 then m % Pow2(926 - e) == 0
    else e == 0 && m == 0
  }

  lemma SubnormalBits(y: nat, h: nat)
    requires 0 < y < EXP32 && h == HighBit(y)
    ensures h <= 22
  {
    HighBitBounds(y);
    Pow2Values();
    if h >= 23 {
      Pow2Grows(23, h);
    }
  }

  /** A subnormal float32 as a float64. */
  lemma SubnormalParts(y: nat, h: nat)
    requires 0 < y < EXP32 && h == HighBit(y)
    ensures h <= 22
    ensures Widened(y) / EXP64 == h + 874 && Widened(y) % EXP64 == (y - Pow2(h)) * Pow2(52 - h)
  {
    SubnormalBits(y, h);
    HighBitBounds(y);
    Pow2Values();
    Pow2Sum(h, 52 - h);
    SubnormalSplits(y, Pow2(h), Pow2(52 - h), h);
    assert Widened(y) == (h + 873) * EXP64 + y * Pow2(52 - h);
  }

  lemma StrictProduct(a: nat, b: nat, unit: nat)
    requires a < b && unit > 0
    ensures a * unit < b * unit
  {
    Product(a + 1, b, unit);
    assert (a + 1) * unit == a * unit + unit;
  }

  lemma SubnormalSplits(y: nat, p: nat, q: nat, h: nat)
    requires p <= y < 2 * p && p * q == EXP64 && q > 0
    ensures ((h + 873) * EXP64 + y * q) / EXP64 == h + 874
    ensures ((h + 873) * EXP64 + y * q) % EXP64 == (y - p) * q
  {
    assert y * q == p * q + (y - p) * q;
    StrictProduct(y - p, p, q);
    Apart((h + 873) * EXP64 + y * q, EXP64, h + 874, (y - p) * q);
  }

  lemma Multiple(a: nat, q: nat)
    requires q > 0
    ensures a * q % q == 0 && a * q / q == a
  {
    Apart(a * q, q, a, 0);
  }

  lemma Multiples(y: nat, e: nat, m: nat)
    requires m < EXP32
    ensures (e * EXP64 + m * CUT) / EXP64 == e && (e * EXP64 + m * CUT) % EXP64 == m * CUT
    ensures m * CUT % CUT == 0 && m * CUT / CUT == m
  {
    Apart(e * EXP64 + m * CUT, EXP64, e, m * CUT);
    Multiple(m, CUT);
  }

  /** What comes from a float32 is one. */
  lemma WidenedIsExact(y: nat)
    requires y < SIGN32
    ensures Exact(Widened(y)) && Widened(y) < SIGN64
  {
    var e, m := y / EXP32, y % EXP32;
    if e == 255 {
      Multiples(y, 2047, if m == 0 then 0 else Quiet(m));
    } else if e > 0 {
      assert y * CUT == e * EXP64 + m * CUT;
      Multiples(y, e + 896, m);
    } else if m > 0 {
      SubnormalIsExact(m, HighBit(m));
    }
  }

  lemma SubnormalIsExact(y: nat, h: nat)
    requires 0 < y < EXP32 && h == HighBit(y)
    ensures Exact(Widened(y)) && Widened(y) < SIGN64
  {
    SubnormalParts(y, h);
    HighBitBounds(y);
    Multiple(y - Pow2(h), Pow2(52 - h));
  }

  lemma NarrowedSmall(x: nat, e: nat, m: nat, unit: nat)
    requires e == x / EXP64 && m == x % EXP64 && 0 < e <= 896 && unit == Pow2(926 - e) && (EXP64 + m) % unit == 0
    ensures Narrowed(x) == (EXP64 + m) / unit
  {
  }

  /** A float64 in the range of float32's subnormals, with no bits below them. */
  lemma SubnormalNarrows(x: nat, e: nat, m: nat, p: nat, q: nat)
    requires e == x / EXP64 && m == x % EXP64 && 874 <= e <= 896 && p == Pow2(e - 874) && q == Pow2(926 - e)
    requires m % q == 0 && p * q == EXP64
    ensures Narrowed(x) * q == EXP64 + m && p <= Narrowed(x) < 2 * p
  {
    SumOfParts(p, q, m);
    NarrowedSmall(x, e, m, q);
  }

  lemma SumOfParts(p: nat, q: nat, m: nat)
    requires q > 0 && p * q == EXP64 && m % q == 0 && m < EXP64
    ensures (p + m / q) * q == EXP64 + m && m / q < p
    ensures (EXP64 + m) % q == 0 && (EXP64 + m) / q == p + m / q
  {
    Parts(m, q);
    var r := m / q;
    assert (p + r) * q == p * q + r * q;
    QuotientBelow(m, q, p);
    Apart(EXP64 + m, q, p + r, 0);
  }

  lemma SubnormalWidens(y: nat, h: nat)
    requires h <= 22 && Pow2(h) <= y < 2 * Pow2(h)
    ensures y < EXP32 && Widened(y) == (h + 873) * EXP64 + y * Pow2(52 - h)
  {
    HighBitIs(y, h);
    Pow2Values();
    Pow2Grows(h, 22);
    Pow2Sum(22, 1);
  }

  lemma SubnormalBack(x: nat, e: nat, m: nat, p: nat, q: nat)
    requires e == x / EXP64 && m == x % EXP64 && 874 <= e <= 896 && p == Pow2(e - 874) && q == Pow2(926 - e)
    requires m % q == 0
    ensures Narrowed(x) < SIGN32 && Widened(Narrowed(x)) == x
  {
    Pow2Values();
    Pow2Sum(e - 874, 926 - e);
    SubnormalNarrows(x, e, m, p, q);
    SubnormalWidens(Narrowed(x), e - 874);
    assert 52 - (e - 874) == 926 - e;
  }

  lemma ExactBack(x: nat)
    requires x < SIGN64 && Exact(x)
    ensures Narrowed(x) < SIGN32 && Widened(Narrowed(x)) == x
  {
    var e, m := x / EXP64, x % EXP64;
    if e == 2047 {
      Apart(Narrowed(x), EXP32, 255, if m == 0 then 0 else m / CUT);
    } else if e >= 897 {
      NormalBack(x, e, m);
    } else if e > 0 {
      SubnormalBack(x, e, m, Pow2(e - 874), Pow2(926 - e));
    }
  }

  lemma NormalBack(x: nat, e: nat, m: nat)
    requires e == x / EXP64 && m == x % EXP64 && 897 <= e <= 1150 && m % CUT == 0
    ensures Narrowed(x) < SIGN32 && Widened(Narrowed(x)) == x
  {
    var y := (e - 896) * EXP32 + m / CUT;
    assert x - 896 * EXP64 == y * CUT;
    Multiple(y, CUT);
    Apart(y, EXP32, e - 896, m / CUT);
  }

  lemma NarrowedBound(x: nat)
    requires x < SIGN64
    ensures Narrowed(x) < SIGN32
  {
    var e, m := x / EXP64, x % EXP64;
    if 0 < e <= 896 {
      Pow2Values();
      Pow2Grows(30, 926 - e);
      Product(2 * CUT, Pow2(926 - e), EXP32);
      QuotientBelow(EXP64 + m, Pow2(926 - e), EXP32);
    }
  }

  /** A float64 is unchanged by float32 exactly when it is a float32. */
  lemma NarrowedBack(x: nat)
    requires x < SIGN64
    ensures Narrowed(x) < SIGN32
    ensures Widened(Narrowed(x)) == x <==> Exact(x)
  {
    NarrowedBound(x);
    if Exact(x) {
      ExactBack(x);
    } else {
      WidenedIsExact(Narrowed(x));
    }
  }

  // ---- with the sign --------------------------------------------------------------------------

  function Size32(b: U32): nat { if b < SIGN32 then b else b - SIGN32 }

  function Size64(d: U64): nat { if d < SIGN64 then d else d - SIGN64 }

  /** float64(math.Float32frombits(b)) */
  function ToDouble(b: U32): U64 {
    WidenedIsExact(Size32(b));
    Signed64(b >= SIGN32, Widened(Size32(b)))
  }

  function Signed64(negative: bool, x: nat): U64
    requires x < SIGN64
  {
    if negative then SIGN64 + x else x
  }

  /** math.Float32bits(float32(d)) */
  function ToSingle(d: U64): U32 {
    NarrowedBound(Size64(d));
    Signed32(d >= SIGN64, Narrowed(Size64(d)))
  }

  function Signed32(negative: bool, x: nat): U32
    requires x < SIGN32
  {
    if negative then SIGN32 + x else x
  }

  /** A float64 that is a float32. */
  predicate IsSingle(d: U64) { Exact(Size64(d)) }

  lemma SingleExactly(d: U64)
    ensures ToDouble(ToSingle(d)) == d <==> IsSingle(d)
  {
    NarrowedBack(Size64(d));
    SameSign(d >= SIGN64, Narrowed(Size64(d)));
  }

  lemma SameSign(negative: bool, y: nat)
    requires y < SIGN32
    ensures Widened(y) < SIGN64 && ToDouble(Signed32(negative, y)) == Signed64(negative, Widened(y))
  {
    WidenedIsExact(y);
  }

  // ---- counts ---------------------------------------------------------------------------------

  /** float64(u): 53 bits of it. */
  function FromCount(u: U64): U64 {
    if u == 0 then 0 else
      var h := HighBit(u);
      CountBound(u, h);
      (h + 1022) * EXP64 + if h <= 52 then u * Pow2(52 - h) else Nearest(u, Pow2(h - 52))
  }

  lemma CountBits(u: U64, h: nat)
    requires u > 0 && h == HighBit(u)
    ensures h <= 63
  {
    HighBitBounds(u);
    Pow2Values();
    Pow2Sum(52, 12);
    assert Pow2(12) == 4096;
    if h > 63 {
      Pow2Grows(64, h);
    }
  }

  lemma CountBound(u: U64, h: nat)
    requires u > 0 && h == HighBit(u)
    ensures h <= 63
    ensures h <= 52 ==> u * Pow2(52 - h) <= 2 * EXP64
    ensures h > 52 ==> u / Pow2(h - 52) < 2 * EXP64
  {
    CountBits(u, h);
    HighBitBounds(u);
    Pow2Values();
    if h <= 52 {
      Pow2Sum(h, 52 - h);
      SmallCount(u, Pow2(h), Pow2(52 - h));
    } else {
      Pow2Sum(52, h - 52);
      LargeCount(u, Pow2(h), Pow2(h - 52));
    }
  }

  lemma SmallCount(u: nat, p: nat, q: nat)
    requires u < 2 * p && p * q == EXP64
    ensures u * q <= 2 * EXP64
  {
    Product(u, 2 * p, q);
    assert (2 * p) * q == 2 * (p * q);
  }

  lemma LargeCount(u: nat, p: nat, q: nat)
    requires u < 2 * p && p == EXP64 * q && q > 0
    ensures u / q < 2 * EXP64
  {
    QuotientBelow(u, q, 2 * EXP64);
  }

  /** A count of 53 bits keeps its value: the significand is the count, shifted as the exponent says. */
  lemma CountKeeps(u: U64)
    requires 0 < u && HighBit(u) <= 52
    ensures FromCount(u) / EXP64 == HighBit(u) + 1023
    ensures EXP64 + FromCount(u) % EXP64 == u * Pow2(52 - HighBit(u))
  {
    var h := HighBit(u);
    var p, q := Pow2(h), Pow2(52 - h);
    HighBitBounds(u);
    Pow2Values();
    Pow2Sum(h, 52 - h);
    CountSplits(u, p, q, h);
  }

  lemma CountSplits(u: nat, p: nat, q: nat, h: nat)
    requires p <= u < 2 * p && p * q == EXP64 && q > 0
    ensures ((h + 1022) * EXP64 + u * q) / EXP64 == h + 1023
    ensures EXP64 + ((h + 1022) * EXP64 + u * q) % EXP64 == u * q
  {
    assert u * q == p * q + (u - p) * q;
    StrictProduct(u - p, p, q);
    Apart((h + 1022) * EXP64 + u * q, EXP64, h + 1023, (u - p) * q);
  }
}
