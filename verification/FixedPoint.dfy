/** Q26.6 fixed-point arithmetic of the text measurer: 64-bit results, wider intermediates. */
module FixedPoint {
  import opened Wrappers

  const INT64_MAX := 0x7FFF_FFFF_FFFF_FFFF
  const INT64_MIN := -0x8000_0000_0000_0000
  const INT128_MAX := 0x7FFF_FFFF_FFFF_FFFF_FFFF_FFFF_FFFF_FFFF

  predicate IsInt64(x: int) {
    INT64_MIN <= x <= INT64_MAX
  }

  predicate IsInt32(x: int) {
    -0x8000_0000 <= x <= 0x7FFF_FFFF
  }

  predicate IsUint32(x: int) {
    0 <= x <= 0xFFFF_FFFF
  }

  /** Division as C++ has it: toward zero. */
  function TruncDiv(n: int, d: int): int
    requires d > 0
  {
    if n >= 0 then n / d else -((-n) / d)
  }

  /** A wide value cut to its low 64 bits and read as signed. */
  function Narrow64(x: int): int {
    (x + 0x8000_0000_0000_0000) % 0x1_0000_0000_0000_0000 - 0x8000_0000_0000_0000
  }

  function Abs(x: int): nat {
    if x < 0 then -x else x
  }

  lemma QuotientBounds(n: nat, d: int)
    requires d > 0
    ensures 0 <= n / d && n / d * d <= n < (n / d + 1) * d
  {
    assert n == n / d * d + n % d;
  }

  lemma MulLess(a: int, b: int, d: int)
    requires d > 0 && a * d < b * d
    ensures a < b
  {
    assert (b - a) * d > 0;
  }

  lemma DivMonotone(n: nat, m: nat, d: int)
    requires d > 0 && n <= m
    ensures n / d <= m / d
  {
    QuotientBounds(n, d);
    QuotientBounds(m, d);
    MulLess(n / d, m / d + 1, d);
  }

  lemma TruncDivMonotone(n: int, m: int, d: int)
    requires d > 0 && n <= m
    ensures TruncDiv(n, d) <= TruncDiv(m, d)
  {
    if 0 <= n {
      DivMonotone(n, m, d);
    } else if m < 0 {
      DivMonotone(-m, -n, d);
    } else {
      QuotientBounds(-n, d);
      QuotientBounds(m, d);
    }
  }

  /** Design units to Q26.6 at a font size: the nearest quotient, halves upward. Fails on a
      zero em or a result outside 64 bits. */
  function ScaleDesignUnits(designUnits: int, fontSize: int, unitsPerEm: nat): (r: Option<int>)
    ensures r.Some? ==> unitsPerEm > 0 && IsInt64(r.value)
  {
    if unitsPerEm == 0 then None
    else
      var product := designUnits * fontSize;
      var scaled := TruncDiv(product + unitsPerEm / 2, unitsPerEm);
      if scaled < INT64_MIN || scaled > INT64_MAX then None else Some(scaled)
  }

  /** The checked addition: succeeds exactly when the true sum is a non-negative 64-bit
      value, and its guards keep every operation it performs inside 64 bits. */
  function AddQ26(left: int, right: int): (r: Option<int>)
    requires IsInt64(left) && IsInt64(right)
    ensures r.Some? <==> 0 <= left + right <= INT64_MAX
    ensures r.Some? ==> r.value == left + right
  {
    if (right > 0 && (assert IsInt64(INT64_MAX - right); left > INT64_MAX - right))
       || (right < 0 && (assert IsInt64(INT64_MIN - right); left < INT64_MIN - right)) then
      None
    else
      assert IsInt64(left + right);
      var output := left + right;
      if output >= 0 then Some(output) else None
  }

  lemma CornerBound(a: int, b: int, m: int, n: int)
    requires a <= m && b <= n
    ensures m * b + a * n <= m * n + a * b
  {
    assert (m - a) * (n - b) >= 0;
    assert (m - a) * (n - b) == m * n - m * b - a * n + a * b;
  }

  lemma ProductBound(a: int, b: int, m: int, n: int)
    requires -m <= a <= m && -n <= b <= n
    ensures -(m * n) <= a * b <= m * n
  {
    CornerBound(a, b, m, n);
    CornerBound(-a, -b, m, n);
    CornerBound(-a, b, m, n);
    CornerBound(a, -b, m, n);
  }

  /** The 128-bit intermediates of the scaling never wrap. */
  lemma ScalingFits128(designUnits: int, fontSize: int, unitsPerEm: nat)
    requires IsInt32(designUnits) && IsInt64(fontSize) && IsUint32(unitsPerEm)
    ensures -INT128_MAX <= designUnits * fontSize <= INT128_MAX
    ensures -INT128_MAX <= designUnits * fontSize + unitsPerEm / 2 <= INT128_MAX
  {
    ProductBound(designUnits, fontSize, 0x8000_0000, 0x8000_0000_0000_0000);
  }

  /** Scaling is monotone in the design units, negative ones included. */
  lemma ScalingMonotone(a: int, b: int, fontSize: nat, unitsPerEm: nat)
    requires a <= b
    requires ScaleDesignUnits(a, fontSize, unitsPerEm).Some?
    requires ScaleDesignUnits(b, fontSize, unitsPerEm).Some?
    ensures ScaleDesignUnits(a, fontSize, unitsPerEm).value
         <= ScaleDesignUnits(b, fontSize, unitsPerEm).value
  {
    MulMonotone(a, b, fontSize);
    TruncDivMonotone(a * fontSize + unitsPerEm / 2, b * fontSize + unitsPerEm / 2, unitsPerEm);
  }

  lemma MulMonotone(a: int, b: int, d: nat)
    requires a <= b
    ensures a * d <= b * d
  {
    assert (b - a) * d >= 0;
  }

  lemma NearestQuotient(n: int, d: int)
    requires 0 <= n && d > 0
    ensures 0 <= TruncDiv(n + d / 2, d)
    ensures 2 * Abs(TruncDiv(n + d / 2, d) * d - n) <= d
  {
    QuotientBounds(n + d / 2, d);
  }

  /** Non-negative design units: within half a Q26.6 unit of the exact quotient. */
  lemma ScalingWithinHalf(designUnits: nat, fontSize: nat, unitsPerEm: nat)
    requires ScaleDesignUnits(designUnits, fontSize, unitsPerEm).Some?
    ensures var scaled := ScaleDesignUnits(designUnits, fontSize, unitsPerEm).value;
            && 0 <= scaled
            && 2 * Abs(scaled * unitsPerEm - designUnits * fontSize) <= unitsPerEm
  {
    NearestQuotient(designUnits * fontSize, unitsPerEm);
  }

  /** Below zero: with the half added before truncating toward zero, `p` over `d` comes out at most
      half a unit off when it is at most a half itself, or a whole number of units past one half. */
  lemma NegativeQuotient(p: nat, d: int)
    requires p > 0 && d > 0
    ensures 2 * Abs(TruncDiv(d / 2 - p, d) * d + p) <= d
       <==> 2 * p <= d || (p >= d / 2 && (p - d / 2) % d == 0)
  {
    var h := d / 2;
    if p <= h {
      QuotientBounds(h - p, d);
      MulLess((h - p) / d, 1, d);
    } else {
      var q, r := (p - h) / d, (p - h) % d;
      assert p - h == q * d + r;
      assert TruncDiv(h - p, d) == -q && -q * d == -(q * d);
    }
  }

  /** When scaling is within half a unit of the exact quotient, for all design units: always, but for
      negative products over half an em in size that are not a whole number of ems past one half. */
  lemma ScalingWithinHalfIff(designUnits: int, fontSize: nat, unitsPerEm: nat)
    requires ScaleDesignUnits(designUnits, fontSize, unitsPerEm).Some?
    ensures var scaled := ScaleDesignUnits(designUnits, fontSize, unitsPerEm).value;
            var product := designUnits * fontSize;
            2 * Abs(scaled * unitsPerEm - product) <= unitsPerEm
            <==> product >= 0 || -2 * product <= unitsPerEm
                 || (-product >= unitsPerEm / 2 && (-product - unitsPerEm / 2) % unitsPerEm == 0)
  {
    var product := designUnits * fontSize;
    if product >= 0 {
      NearestQuotient(product, unitsPerEm);
    } else {
      NegativeQuotient(-product, unitsPerEm);
    }
  }

  /** The half-unit bound is lost below zero: -9 units of a 10-unit em at size 1 are -9/10
      exactly but scale to 0, because the half is added before truncating toward zero. */
  lemma NegativeUnitsRoundFurther()
    ensures ScaleDesignUnits(-9, 1, 10) == Some(0)
    ensures 2 * Abs(0 * 10 - -9) > 10
  {
  }
}
