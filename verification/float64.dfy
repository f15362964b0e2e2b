/** The finite doubles, as far as the pipeline depends on them: their range. */
module Float64 {

  /** math.MaxFloat64. */
  const MAX_FLOAT64: real :=
    179769313486231570814527423731704356798070567525844996598917476803157260780028538760589558632766878171540458953514382464234321326889464182768467546703537516986049910576551282076245490090389328944075868508455133942304583236903222948165808559332123348274797826204144723168738177180919299881250404026184124858368.0

  const SIGNIFICAND: int := 9_007_199_254_740_992 // 2^53
  const MIN_EXPONENT: int := -1074
  const MAX_EXPONENT: int := 971

  function Exp2(e: int): real
    decreases if e < 0 then -e else e
  {
    if e == 0 then 1.0 else if e > 0 then 2.0 * Exp2(e - 1) else Exp2(e + 1) / 2.0
  }

  function Scaled(m: int, e: int): real { m as real * Exp2(e) }

  /** The finite values of the binary64 format: an integer of at most 53 bits, scaled by a power of two. */
  ghost predicate IsFloat64(v: real) {
    exists m: int, e: int ::
      -SIGNIFICAND < m < SIGNIFICAND && MIN_EXPONENT <= e <= MAX_EXPONENT && v == Scaled(m, e)
  }

  lemma {:induction false} Exp2Sum(a: nat, b: nat)
    ensures Exp2(a + b) == Exp2(a) * Exp2(b)
  {
    if a > 0 {
      Exp2Sum(a - 1, b);
      assert Exp2(a + b) == 2.0 * Exp2(a - 1 + b);
    }
  }

  lemma Exp2Double(e: nat, v: real)
    requires Exp2(e) == v
    ensures Exp2(2 * e) == v * v && Exp2(2 * e + 1) == 2.0 * (v * v)
  {
    Exp2Sum(e, e);
  }

  lemma {:induction false} Exp2Grows(a: int, b: int)
    requires a <= b
    ensures 0.0 < Exp2(a) <= Exp2(b)
    decreases b - a
  {
    if a < b {
      Exp2Grows(a, b - 1);
    } else {
      Exp2Positive(a);
    }
  }

  lemma {:induction false} Exp2Positive(e: int)
    ensures 0.0 < Exp2(e)
    decreases if e < 0 then -e else e
  {
    if e > 0 {
      Exp2Positive(e - 1);
    } else if e < 0 {
      Exp2Positive(e + 1);
    }
  }

  /** The constant is 2^53 - 1, scaled by the largest exponent. */
  lemma MaxFloat64IsScaled()
    ensures MAX_FLOAT64 == Scaled(SIGNIFICAND - 1, MAX_EXPONENT)
  {
    assert Exp2(15) == 32768.0;
    Exp2Double(15, 32768.0);
    Exp2Double(30, 1073741824.0);
    Exp2Double(60, 1152921504606846976.0);
    Exp2Double(121, 2658455991569831745807614120560689152.0);
    Exp2Double(242, 7067388259113537318333190002971674063309935587502475832486424805170479104.0);
    Exp2Double(485,
      99895953610111751404211111353381321783955140565279076827493022708011895642232499843849795298031743077114461795885011932654335221737225129801285632.0);
  }

  lemma ScaledBound(m: int, e: int)
    requires -SIGNIFICAND < m < SIGNIFICAND && e <= MAX_EXPONENT
    ensures -Scaled(SIGNIFICAND - 1, MAX_EXPONENT) <= Scaled(m, e) <= Scaled(SIGNIFICAND - 1, MAX_EXPONENT)
  {
    Exp2Grows(e, MAX_EXPONENT);
    ProductBound(m as real, Exp2(e), (SIGNIFICAND - 1) as real, Exp2(MAX_EXPONENT));
  }

  lemma ProductBound(m: real, p: real, n: real, q: real)
    requires -n <= m <= n && 0.0 < p <= q
    ensures -(n * q) <= m * p <= n * q
  {
    assert m * p <= n * p <= n * q;
    assert -(n * p) <= m * p;
  }

  /** The constant is the largest finite double: it is one, and none is larger in magnitude. */
  lemma LargestFiniteDouble(v: real)
    ensures IsFloat64(MAX_FLOAT64) && IsFloat64(-MAX_FLOAT64)
    ensures IsFloat64(v) ==> -MAX_FLOAT64 <= v <= MAX_FLOAT64
  {
    MaxFloat64IsScaled();
    assert -MAX_FLOAT64 == Scaled(1 - SIGNIFICAND, MAX_EXPONENT);
    if IsFloat64(v) {
      var m, e :| -SIGNIFICAND < m < SIGNIFICAND && MIN_EXPONENT <= e <= MAX_EXPONENT && v == Scaled(m, e);
      ScaledBound(m, e);
    }
  }
}
