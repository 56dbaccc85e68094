/** The spot price of one pool, from v2 reserves or from a v3 square-root price,
    in exact rational arithmetic. */
module OracleSpot {
  const WFLOW_DECIMALS: int := 18

  /** 2^192, the scale of a squared X96 root. */
  const Q192: real := 0x1_0000_0000_0000_0000_0000_0000_0000_0000_0000_0000_0000_0000 as real

  /** 10^n, and 1 for every n <= 0. */
  function Pow10(n: int): (r: real)
    ensures r >= 1.0
    decreases n
  {
    if n <= 0 then 1.0 else 10.0 * Pow10(n - 1)
  }

  function RatPow10(n: int): real {
    if n >= 0 then Pow10(n) else 1.0 / Pow10(-n)
  }

  function SpotFromReserves(reserveStable: int, reserveWflow: int, stableDec: int): real {
    ReserveQuotient(reserveStable as real, reserveWflow as real, Pow10(WFLOW_DECIMALS), Pow10(stableDec))
  }

  function ReserveQuotient(stable: real, wflow: real, wflowUnit: real, stableUnit: real): real {
    var num := stable * wflowUnit;
    var den := wflow * stableUnit;
    if den == 0.0 then 0.0 else num / den
  }

  function SpotFromSqrtPriceX96(sqrtP: int, wflowIsToken0: bool, stableDec: int): real {
    SpotFromRoot(sqrtP as real, wflowIsToken0, stableDec)
  }

  /** The same formula at any real root. */
  function SpotFromRoot(root: real, wflowIsToken0: bool, stableDec: int): real {
    Oriented(RawPrice(root), RatPow10(WFLOW_DECIMALS - stableDec), wflowIsToken0)
  }

  /** Raw token1 per raw token0. */
  function RawPrice(root: real): real {
    root * root / Q192
  }

  function Oriented(priceRaw: real, scale: real, wflowIsToken0: bool): real {
    if wflowIsToken0 then priceRaw * scale
    else if priceRaw == 0.0 then 0.0
    else scale / priceRaw
  }

  /** A raw amount in human units. */
  function Amount(raw: int, decimals: int): real {
    raw as real / Pow10(decimals)
  }

  /** The v2 spot of a pool, whichever side WFLOW is on. */
  function ReserveSpot(r0: int, r1: int, wflowIsToken0: bool, stableDec: int): real {
    if wflowIsToken0 then SpotFromReserves(r1, r0, stableDec) else SpotFromReserves(r0, r1, stableDec)
  }

  // ---- Arithmetic ----

  lemma SameFactor(a: real, b: real, c: real)
    requires a * c == b * c && c != 0.0
    ensures a == b
  {
    assert (a - b) * c == 0.0;
  }

  lemma PositiveQuotient(a: real, b: real)
    requires a > 0.0 && b > 0.0
    ensures a / b > 0.0
  {
    assert a / b * b == a;
  }

  lemma PositiveFactor(x: real, r: real)
    requires r > 0.0 && x * r > 0.0
    ensures x > 0.0
  {
  }

  lemma Scale(a: real, b: real, w: real)
    requires a <= b && w >= 0.0
    ensures a * w <= b * w
  {
  }

  predicate Times(c: real, a: real, b: real) {
    c == a * b
  }

  predicate SameProduct(a: real, b: real, c: real, d: real) {
    a * b == c * d
  }

  // ---- Powers of ten ----

  lemma TenthOf(p: real)
    requires p > 0.0
    ensures 1.0 / p == 10.0 * (1.0 / (10.0 * p))
  {
    var a, b := 1.0 / p, 1.0 / (10.0 * p);
    assert a * p == 1.0 && (10.0 * b) * p == 1.0;
    SameFactor(a, 10.0 * b, p);
  }

  lemma NextPower(n: int)
    ensures RatPow10(n + 1) == 10.0 * RatPow10(n)
  {
    if n < -1 { TenthOf(Pow10(-n - 1)); }
  }

  lemma MoveTen(c: real, a: real, b: real)
    requires Times(c, 10.0 * a, b)
    ensures Times(c, a, 10.0 * b)
  {
  }

  lemma TenTimes(c: real, a: real, b: real)
    requires Times(c, a, b)
    ensures Times(10.0 * c, 10.0 * a, b)
  {
  }

  lemma {:induction false} ScaleUp(w: int, stableDec: int)
    requires w >= 0 && stableDec >= 0
    ensures Times(Pow10(w), RatPow10(w - stableDec), Pow10(stableDec))
    decreases stableDec
  {
    if stableDec > 0 {
      ScaleUp(w, stableDec - 1);
      NextPower(w - stableDec);
      MoveTen(Pow10(w), RatPow10(w - stableDec), Pow10(stableDec - 1));
    }
  }

  lemma {:induction false} ScaleDown(w: int, stableDec: int)
    requires w >= 0 && stableDec <= 0
    ensures Times(RatPow10(w - stableDec), Pow10(-stableDec), Pow10(w))
    decreases -stableDec
  {
    if stableDec < 0 {
      ScaleDown(w, stableDec + 1);
      NextPower(w - stableDec - 1);
      TenTimes(RatPow10(w - stableDec - 1), Pow10(-stableDec - 1), Pow10(w));
    }
  }

  /** What a negative stableDec does to the v3 scale: nothing otherwise. */
  function Skew(stableDec: int): real {
    Pow10(-stableDec)
  }

  lemma UnitScale(scale: real, d: real, k: real, t: real)
    requires Times(t, scale, d) && k == 1.0
    ensures SameProduct(scale, d, k, t)
  {
  }

  lemma SkewedScale(scale: real, d: real, k: real, t: real)
    requires Times(scale, k, t) && d == 1.0
    ensures SameProduct(scale, d, k, t)
  {
  }

  lemma ScalesMatch(w: int, stableDec: int)
    requires w >= 0
    ensures SameProduct(RatPow10(w - stableDec), Pow10(stableDec), Skew(stableDec), Pow10(w))
  {
    if stableDec >= 0 {
      ScaleUp(w, stableDec);
      UnitScale(RatPow10(w - stableDec), Pow10(stableDec), Skew(stableDec), Pow10(w));
    } else {
      ScaleDown(w, stableDec);
      SkewedScale(RatPow10(w - stableDec), Pow10(stableDec), Skew(stableDec), Pow10(w));
    }
  }

  lemma SkewIsOne(stableDec: int)
    ensures Skew(stableDec) == 1.0 <==> stableDec >= 0
  {
  }

  // ---- The two formulas agree ----

  /** q is the quotient the v2 formula computes. */
  predicate IsQuotient(q: real, stable: real, wflow: real, wflowUnit: real, stableUnit: real) {
    q > 0.0 && q * (wflow * stableUnit) == stable * wflowUnit
  }

  lemma QuotientOf(s: real, w: real, t: real, d: real)
    requires s > 0.0 && t > 0.0 && w > 0.0 && d > 0.0
    ensures IsQuotient(ReserveQuotient(s, w, t, d), s, w, t, d)
  {
    assert w * d > 0.0 && s * t > 0.0;
    PositiveQuotient(s * t, w * d);
  }

  /** A raw price x with x * r0 == r1, scaled, against the reserve quotients u
      (WFLOW is token0) and v (WFLOW is token1). */
  lemma ScaledRawPrice(x: real, r0: real, r1: real, scale: real, d: real, t: real, k: real, u: real, v: real)
    requires r0 > 0.0 && r1 > 0.0 && d > 0.0 && x * r0 == r1 && SameProduct(scale, d, k, t)
    requires IsQuotient(u, r1, r0, t, d) && IsQuotient(v, r0, r1, t, d)
    ensures Times(Oriented(x, scale, true), k, u) && Times(Oriented(x, scale, false), k, v)
  {
    PositiveFactor(x, r0);
    assert r0 * d > 0.0 && r1 * d > 0.0;
    assert x * scale == k * u by {
      assert (x * scale) * (r0 * d) == (x * r0) * (scale * d) == r1 * (k * t) == k * (r1 * t);
      assert (k * u) * (r0 * d) == k * (u * (r0 * d));
      SameFactor(x * scale, k * u, r0 * d);
    }
    assert scale / x == k * v by {
      assert scale / x * x == scale;
      assert (scale / x) * (r1 * d) == (scale / x * x) * (r0 * d) == r0 * (scale * d) == k * (r0 * t);
      assert (k * v) * (r1 * d) == k * (v * (r1 * d));
      SameFactor(scale / x, k * v, r1 * d);
    }
  }

  /** root is the true X96 square-root price of the reserves. */
  predicate IsRootOf(root: real, r0: int, r1: int) {
    root * root * (r0 as real) == r1 as real * Q192
  }

  lemma RawPriceOf(root: real, r0: int, r1: int)
    requires IsRootOf(root, r0, r1)
    ensures RawPrice(root) * (r0 as real) == r1 as real
  {
    var x := RawPrice(root);
    assert x * Q192 == root * root;
    assert (x * (r0 as real)) * Q192 == (x * Q192) * (r0 as real);
    SameFactor(x * (r0 as real), r1 as real, Q192);
  }

  /** At the root of the pool's reserves the v3 formula gives the v2 spot, times
      10^-stableDec if stableDec is negative; for both token orders. */
  lemma FormulasAgree(root: real, r0: int, r1: int, wflowIsToken0: bool, stableDec: int)
    requires r0 > 0 && r1 > 0 && IsRootOf(root, r0, r1)
    ensures ReserveSpot(r0, r1, wflowIsToken0, stableDec) > 0.0
    ensures Times(SpotFromRoot(root, wflowIsToken0, stableDec), Skew(stableDec),
      ReserveSpot(r0, r1, wflowIsToken0, stableDec))
  {
    RawPriceOf(root, r0, r1);
    ScalesMatch(WFLOW_DECIMALS, stableDec);
    QuotientOf(r1 as real, r0 as real, Pow10(WFLOW_DECIMALS), Pow10(stableDec));
    QuotientOf(r0 as real, r1 as real, Pow10(WFLOW_DECIMALS), Pow10(stableDec));
    ScaledRawPrice(RawPrice(root), r0 as real, r1 as real, RatPow10(WFLOW_DECIMALS - stableDec), Pow10(stableDec),
      Pow10(WFLOW_DECIMALS), Skew(stableDec), SpotFromReserves(r1, r0, stableDec), SpotFromReserves(r0, r1, stableDec));
  }

  lemma TimesOneIff(v3: real, k: real, v2: real)
    requires Times(v3, k, v2) && v2 > 0.0
    ensures v3 == v2 <==> k == 1.0
  {
    if v3 == v2 { SameFactor(k, 1.0, v2); }
  }

  /** A v3 pool whose root is exact quotes the price of its reserves if and only
      if stableDec is not negative. */
  lemma SpotsAgreeIff(sqrtP: int, r0: int, r1: int, wflowIsToken0: bool, stableDec: int)
    requires r0 > 0 && r1 > 0 && IsRootOf(sqrtP as real, r0, r1)
    ensures SpotFromSqrtPriceX96(sqrtP, wflowIsToken0, stableDec) == ReserveSpot(r0, r1, wflowIsToken0, stableDec)
       <==> stableDec >= 0
  {
    FormulasAgree(sqrtP as real, r0, r1, wflowIsToken0, stableDec);
    SkewIsOne(stableDec);
    TimesOneIff(SpotFromSqrtPriceX96(sqrtP, wflowIsToken0, stableDec), Skew(stableDec),
      ReserveSpot(r0, r1, wflowIsToken0, stableDec));
  }

  // ---- A truncated root ----

  /** a differs from b by at most the fraction err of b. */
  predicate Near(a: real, b: real, err: real) {
    -(b * err) <= a - b <= b * err
  }

  function RootError(p: real): real
    requires p > 0.0
  {
    (2.0 * p + 1.0) / (p * p)
  }

  predicate IsRootError(err: real, p: real) {
    err > 0.0 && err * (p * p) == 2.0 * p + 1.0
  }

  lemma RootErrorIs(p: real)
    requires p > 0.0
    ensures IsRootError(RootError(p), p)
  {
    PositiveQuotient(2.0 * p + 1.0, p * p);
  }

  predicate SlightlyAbove(y: real, x: real, err: real) {
    0.0 < x <= y <= x + err * x
  }

  lemma RawPricesNear(p: real, q: real, err: real)
    requires 0.0 < p <= q < p + 1.0 && IsRootError(err, p)
    ensures SlightlyAbove(RawPrice(q), RawPrice(p), err)
  {
    SquaresNear(p, q, err);
    DividedNear(p * p, q * q, err);
  }

  lemma SquaresNear(p: real, q: real, err: real)
    requires 0.0 < p <= q < p + 1.0 && IsRootError(err, p)
    ensures SlightlyAbove(q * q, p * p, err)
  {
    SquareStep(p, q);
    SlightlyAboveBy(p * p, q * q, err, 2.0 * p + 1.0);
  }

  lemma SquareStep(p: real, q: real)
    requires 0.0 < p <= q < p + 1.0
    ensures 0.0 < p * p <= q * q <= p * p + (2.0 * p + 1.0)
  {
    var d, s := q - p, q + p;
    SquareGap(p, q, d, s);
    PartOf(d, s);
    PositiveProduct(p, p);
    assert q * q == p * p + d * s && 0.0 <= d * s <= s <= 2.0 * p + 1.0;
  }

  lemma PartOf(d: real, s: real)
    requires 0.0 <= d <= 1.0 && s >= 0.0
    ensures 0.0 <= d * s <= s
  {
    Scale(0.0, d, s);
    Scale(d, 1.0, s);
  }

  lemma SquareGap(p: real, q: real, d: real, s: real)
    requires d == q - p && s == q + p
    ensures q * q == p * p + d * s
  {
  }

  lemma PositiveProduct(a: real, b: real)
    requires a > 0.0 && b > 0.0
    ensures a * b > 0.0
  {
  }

  lemma SlightlyAboveBy(x: real, y: real, err: real, step: real)
    requires 0.0 < x <= y <= x + step && err * x == step
    ensures SlightlyAbove(y, x, err)
  {
  }

  lemma DividedNear(x: real, y: real, err: real)
    requires SlightlyAbove(y, x, err)
    ensures SlightlyAbove(y / Q192, x / Q192, err)
  {
    PositiveQuotient(x, Q192);
    assert (x + err * x) / Q192 == x / Q192 + err * (x / Q192);
  }

  lemma DirectNear(x: real, y: real, scale: real, err: real)
    requires SlightlyAbove(y, x, err) && scale > 0.0 && err > 0.0
    ensures Near(Oriented(x, scale, true), Oriented(y, scale, true), err)
  {
    Scale(x, y, scale);
    Scale(y - x, err * x, scale);
    Scale(x, y, err * scale);
    assert err * x * scale == x * (err * scale) && y * (err * scale) == y * scale * err;
    assert (y - x) * scale == y * scale - x * scale;
  }

  lemma InverseNear(x: real, y: real, scale: real, err: real)
    requires SlightlyAbove(y, x, err) && scale > 0.0 && err > 0.0
    ensures Near(Oriented(x, scale, false), Oriented(y, scale, false), err)
  {
    var a, b := scale / x, scale / y;
    assert a * x == scale && b * y == scale;
    PositiveQuotient(scale, y);
    Scale(y - x, err * x, b);
    assert (a - b) * x == b * (y - x) && (b * err) * x == b * (err * x);
    assert (a - b - b * err) * x <= 0.0 <= (a - b + b * err) * x by { Scale(0.0, y - x, b); Scale(0.0, err * x, b); }
    if a - b - b * err > 0.0 { Scale(0.0, a - b - b * err, x); assert (a - b - b * err) * x > 0.0; }
    if a - b + b * err < 0.0 { assert (a - b + b * err) * x < 0.0; }
  }

  lemma ScaleIsPositive(n: int)
    ensures RatPow10(n) > 0.0
  {
    if n < 0 { PositiveQuotient(1.0, Pow10(-n)); }
  }

  /** Truncating the true root q to p moves the spot by at most the fraction
      (2p+1)/p^2. */
  lemma TruncatedRoot(p: int, q: real, wflowIsToken0: bool, stableDec: int)
    requires p > 0 && p as real <= q < p as real + 1.0
    ensures Near(SpotFromSqrtPriceX96(p, wflowIsToken0, stableDec), SpotFromRoot(q, wflowIsToken0, stableDec),
      RootError(p as real))
  {
    var scale, err := RatPow10(WFLOW_DECIMALS - stableDec), RootError(p as real);
    ScaleIsPositive(WFLOW_DECIMALS - stableDec);
    RootErrorIs(p as real);
    RawPricesNear(p as real, q, err);
    DirectNear(RawPrice(p as real), RawPrice(q), scale, err);
    InverseNear(RawPrice(p as real), RawPrice(q), scale, err);
  }

  /** A v3 pool stores the truncated root, so its quote is within that fraction
      of the price of its reserves. */
  lemma StoredRootQuotesTheReserves(p: int, q: real, r0: int, r1: int, wflowIsToken0: bool, stableDec: int)
    requires p > 0 && p as real <= q < p as real + 1.0 && stableDec >= 0
    requires r0 > 0 && r1 > 0 && IsRootOf(q, r0, r1)
    ensures Near(SpotFromSqrtPriceX96(p, wflowIsToken0, stableDec), ReserveSpot(r0, r1, wflowIsToken0, stableDec),
      RootError(p as real))
  {
    FormulasAgree(q, r0, r1, wflowIsToken0, stableDec);
    SkewIsOne(stableDec);
    TimesOneIff(SpotFromRoot(q, wflowIsToken0, stableDec), Skew(stableDec),
      ReserveSpot(r0, r1, wflowIsToken0, stableDec));
    TruncatedRoot(p, q, wflowIsToken0, stableDec);
  }

  // ---- The weight ----

  /** The weight of a v2 pool, the value of its WFLOW leg, is the human amount of
      its stable leg. */
  lemma WeightIsTheStableLeg(stable: int, wflow: int, stableDec: int)
    requires stable > 0 && wflow > 0
    ensures Amount(wflow, WFLOW_DECIMALS) * SpotFromReserves(stable, wflow, stableDec) == Amount(stable, stableDec)
  {
    QuotientOf(stable as real, wflow as real, Pow10(WFLOW_DECIMALS), Pow10(stableDec));
    LegsBalance(stable as real, wflow as real, Pow10(WFLOW_DECIMALS), Pow10(stableDec),
      SpotFromReserves(stable, wflow, stableDec));
  }

  lemma LegsBalance(s: real, w: real, t: real, d: real, price: real)
    requires w > 0.0 && t > 0.0 && d > 0.0 && IsQuotient(price, s, w, t, d)
    ensures (w / t) * price == s / d
  {
    var a := w / t;
    assert a * t == w && s / d * d == s;
    assert ((a * price) * d) * t == price * ((a * t) * d) == s * t;
    SameFactor((a * price) * d, s, t);
    SameFactor(a * price, s / d, d);
  }
}
