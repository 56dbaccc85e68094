/** From per-pool spots to one price: median, outlier rejection, TVL-weighted
    mean, sanity band. Prices are exact reals. */
module OracleAggregate {
  datatype Spot = Spot(price: real, tvl: real)

  datatype Config = Config(minPools: int, minSurvivors: int, maxDeviation: real, sanityMin: real, sanityMax: real)

  datatype Outcome =
    | Price(value: real)
    | TooFewPools
    | NonPositiveMedian
    | TooFewSurvivors
    | NoLiquidity
    | OutsideBand

  // ---- Sorting and the median ----

  predicate Sorted(xs: seq<real>) {
    forall i, j :: 0 <= i < j < |xs| ==> xs[i] <= xs[j]
  }

  function InsertSorted(x: real, xs: seq<real>): (r: seq<real>)
    ensures |r| == |xs| + 1 && multiset(r) == multiset{x} + multiset(xs)
  {
    if xs == [] || x <= xs[0] then [x] + xs
    else
      assert xs == [xs[0]] + xs[1..];
      [xs[0]] + InsertSorted(x, xs[1..])
  }

  lemma {:induction false} InsertKeepsSorted(x: real, xs: seq<real>)
    requires Sorted(xs)
    ensures Sorted(InsertSorted(x, xs))
    decreases |xs|
  {
    if xs != [] && x > xs[0] {
      var rest := InsertSorted(x, xs[1..]);
      InsertKeepsSorted(x, xs[1..]);
      forall i | 0 <= i < |rest| ensures xs[0] <= rest[i] {
        assert rest[i] in multiset(rest);
        assert rest[i] == x || rest[i] in xs[1..];
      }
    }
  }

  function Sort(xs: seq<real>): (r: seq<real>)
    ensures |r| == |xs| && Sorted(r) && multiset(r) == multiset(xs)
  {
    if xs == [] then []
    else
      assert xs == [xs[0]] + xs[1..];
      InsertKeepsSorted(xs[0], Sort(xs[1..]));
      InsertSorted(xs[0], Sort(xs[1..]))
  }

  function Median(xs: seq<real>): real {
    Middle(Sort(xs))
  }

  function Middle(s: seq<real>): real {
    var n := |s|;
    if n == 0 then 0.0
    else if n % 2 == 1 then s[n / 2]
    else (s[n / 2 - 1] + s[n / 2]) / 2.0
  }

  // ---- The aggregate as a function ----

  function Abs(x: real): real {
    if x < 0.0 then -x else x
  }

  function Map(f: Spot -> real, spots: seq<Spot>): (r: seq<real>)
    ensures |r| == |spots|
    ensures forall k :: 0 <= k < |spots| ==> r[k] == f(spots[k])
  {
    seq(|spots|, i requires 0 <= i < |spots| => f(spots[i]))
  }

  function Sum(xs: seq<real>): real {
    if xs == [] then 0.0 else Sum(xs[..|xs| - 1]) + xs[|xs| - 1]
  }

  function PriceOf(s: Spot): real { s.price }

  function TvlOf(s: Spot): real { s.tvl }

  function Worth(s: Spot): real { Product(s.price, s.tvl) }

  function Product(a: real, b: real): real { a * b }

  function Prices(spots: seq<Spot>): seq<real> { Map(PriceOf, spots) }

  predicate Near(s: Spot, med: real, deviation: real)
    requires med > 0.0
  {
    Abs(s.price - med) / med <= deviation
  }

  function Survivors(spots: seq<Spot>, med: real, deviation: real): seq<Spot>
    requires med > 0.0
  {
    if spots == [] then []
    else
      var rest := Survivors(spots[..|spots| - 1], med, deviation);
      if Near(spots[|spots| - 1], med, deviation) then rest + [spots[|spots| - 1]] else rest
  }

  function Weighted(spots: seq<Spot>): real { Sum(Map(Worth, spots)) }

  function Liquidity(spots: seq<Spot>): real { Sum(Map(TvlOf, spots)) }

  function Mean(survivors: seq<Spot>, c: Config): Outcome {
    if |survivors| < c.minSurvivors then TooFewSurvivors
    else if Liquidity(survivors) <= 0.0 then NoLiquidity
    else
      var final := Weighted(survivors) / Liquidity(survivors);
      if final < c.sanityMin || final > c.sanityMax then OutsideBand else Price(final)
  }

  function Aggregate(spots: seq<Spot>, c: Config): Outcome {
    if |spots| < c.minPools then TooFewPools
    else
      var med := Median(Prices(spots));
      if med <= 0.0 then NonPositiveMedian else Mean(Survivors(spots, med, c.maxDeviation), c)
  }

  lemma SumSnoc(f: Spot -> real, s: seq<Spot>, i: nat)
    requires i < |s|
    ensures Map(f, s[..i + 1]) == Map(f, s[..i]) + [f(s[i])]
    ensures Sum(Map(f, s[..i + 1])) == Sum(Map(f, s[..i])) + f(s[i])
  {
    assert s[..i + 1][..i] == s[..i];
    var m := Map(f, s[..i]) + [f(s[i])];
    assert m[..|m| - 1] == Map(f, s[..i]);
  }

  /** The second loop of aggregate: outlier rejection. */
  method Reject(spots: seq<Spot>, med: real, deviation: real) returns (survivors: seq<Spot>)
    requires med > 0.0
    ensures survivors == Survivors(spots, med, deviation)
  {
    survivors := [];
    for i := 0 to |spots|
      invariant survivors == Survivors(spots[..i], med, deviation)
    {
      assert spots[..i + 1][..i] == spots[..i];
      if Abs(spots[i].price - med) / med <= deviation { survivors := survivors + [spots[i]]; }
    }
    assert spots[..|spots|] == spots;
  }

  /** The third loop: both sums over the survivors. */
  method SumUp(survivors: seq<Spot>) returns (wSum: real, tvlSum: real)
    ensures wSum == Weighted(survivors) && tvlSum == Liquidity(survivors)
  {
    wSum, tvlSum := 0.0, 0.0;
    for i := 0 to |survivors|
      invariant wSum == Weighted(survivors[..i]) && tvlSum == Liquidity(survivors[..i])
    {
      SumSnoc(Worth, survivors, i);
      SumSnoc(TvlOf, survivors, i);
      wSum := wSum + Worth(survivors[i]);
      tvlSum := tvlSum + survivors[i].tvl;
    }
    assert survivors[..|survivors|] == survivors;
  }

  /** aggregate as it is written, with its accumulating loops. */
  method ComputeAggregate(spots: seq<Spot>, c: Config) returns (r: Outcome)
    ensures r == Aggregate(spots, c)
  {
    if |spots| < c.minPools { return TooFewPools; }
    var prices := [];
    for i := 0 to |spots|
      invariant prices == Prices(spots[..i])
    {
      SumSnoc(PriceOf, spots, i);
      prices := prices + [spots[i].price];
    }
    assert spots[..|spots|] == spots;
    var med := Median(prices);
    if med <= 0.0 { return NonPositiveMedian; }
    var survivors := Reject(spots, med, c.maxDeviation);
    if |survivors| < c.minSurvivors { return TooFewSurvivors; }
    var wSum, tvlSum := SumUp(survivors);
    if tvlSum <= 0.0 { return NoLiquidity; }
    var final := wSum / tvlSum;
    if final < c.sanityMin || final > c.sanityMax { return OutsideBand; }
    r := Price(final);
  }

  // ---- Order does not matter ----

  function Without<T>(s: seq<T>, i: nat): seq<T>
    requires i < |s|
  {
    s[..i] + s[i + 1..]
  }

  lemma WithoutBag<T>(s: seq<T>, i: nat)
    requires i < |s|
    ensures multiset(Without(s, i)) == multiset(s) - multiset{s[i]}
    ensures multiset(s) == multiset(Without(s, i)) + multiset{s[i]}
  {
    assert s == s[..i] + [s[i]] + s[i + 1..];
  }

  lemma {:induction false} SumTakeOut(xs: seq<real>, i: nat)
    requires i < |xs|
    ensures Sum(xs) == Sum(Without(xs, i)) + xs[i]
    decreases |xs|
  {
    var last := |xs| - 1;
    if i == last {
      assert Without(xs, i) == xs[..last];
    } else {
      SumTakeOut(xs[..last], i);
      assert Without(xs, i)[..last - 1] == Without(xs[..last], i);
    }
  }

  lemma {:induction false} SumPermutable(xs: seq<real>, ys: seq<real>)
    requires multiset(xs) == multiset(ys)
    ensures Sum(xs) == Sum(ys)
    decreases |xs|
  {
    assert |xs| == |multiset(xs)| == |ys|;
    if xs != [] {
      var last := |xs| - 1;
      assert xs == xs[..last] + [xs[last]];
      assert xs[last] in multiset(ys);
      var i :| 0 <= i < |ys| && ys[i] == xs[last];
      WithoutBag(ys, i);
      assert multiset(xs[..last]) == multiset(xs) - multiset{xs[last]};
      SumPermutable(xs[..last], Without(ys, i));
      SumTakeOut(ys, i);
    }
  }

  lemma MapTakeOut(f: Spot -> real, s: seq<Spot>, i: nat)
    requires i < |s|
    ensures multiset(Map(f, s)) == multiset(Map(f, Without(s, i))) + multiset{f(s[i])}
  {
    MapWithout(f, s, i);
    WithoutBag(Map(f, s), i);
  }

  lemma MapWithout(f: Spot -> real, s: seq<Spot>, i: nat)
    requires i < |s|
    ensures Map(f, Without(s, i)) == Without(Map(f, s), i)
  {
    var a, b := Map(f, Without(s, i)), Without(Map(f, s), i);
    forall k | 0 <= k < |a| ensures a[k] == b[k] {
      assert a[k] == f(Without(s, i)[k]);
    }
  }

  lemma {:induction false} MapPermutable(f: Spot -> real, a: seq<Spot>, b: seq<Spot>)
    requires multiset(a) == multiset(b)
    ensures multiset(Map(f, a)) == multiset(Map(f, b))
    decreases |a|
  {
    assert |a| == |multiset(a)| == |b|;
    if a != [] {
      assert a[0] in multiset(b);
      var i :| 0 <= i < |b| && b[i] == a[0];
      WithoutBag(a, 0);
      WithoutBag(b, i);
      MapPermutable(f, Without(a, 0), Without(b, i));
      MapTakeOut(f, a, 0);
      MapTakeOut(f, b, i);
    }
  }

  /** Every sum over the pools, and the bag of their prices, ignores order. */
  lemma SumsArePermutable(a: seq<Spot>, b: seq<Spot>)
    requires multiset(a) == multiset(b)
    ensures Weighted(a) == Weighted(b) && Liquidity(a) == Liquidity(b)
    ensures multiset(Prices(a)) == multiset(Prices(b))
  {
    MapPermutable(PriceOf, a, b);
    MapPermutable(Worth, a, b);
    MapPermutable(TvlOf, a, b);
    SumPermutable(Map(Worth, a), Map(Worth, b));
    SumPermutable(Map(TvlOf, a), Map(TvlOf, b));
  }

  lemma {:induction false} SurvivorBag(s: seq<Spot>, med: real, deviation: real, x: Spot)
    requires med > 0.0
    ensures multiset(Survivors(s, med, deviation))[x] == if Near(x, med, deviation) then multiset(s)[x] else 0
    decreases |s|
  {
    if s != [] {
      SurvivorBag(s[..|s| - 1], med, deviation, x);
      assert s == s[..|s| - 1] + [s[|s| - 1]];
    }
  }

  lemma LeastIsFirst(a: seq<real>, b: seq<real>)
    requires Sorted(a) && multiset(a) == multiset(b) && b != []
    ensures a != [] && a[0] <= b[0]
  {
    assert b[0] in multiset(a);
  }

  lemma HeadTailBag(a: seq<real>)
    requires a != []
    ensures multiset(a[1..]) == multiset(a) - multiset{a[0]}
  {
    assert a == [a[0]] + a[1..];
  }

  lemma {:induction false} SortedIsUnique(a: seq<real>, b: seq<real>)
    requires Sorted(a) && Sorted(b) && multiset(a) == multiset(b)
    ensures a == b
    decreases |a|
  {
    assert |a| == |multiset(a)| == |b|;
    if a != [] {
      LeastIsFirst(a, b);
      LeastIsFirst(b, a);
      HeadTailBag(a);
      HeadTailBag(b);
      SortedIsUnique(a[1..], b[1..]);
    }
  }

  lemma SurvivorsPermutable(a: seq<Spot>, b: seq<Spot>, med: real, deviation: real)
    requires med > 0.0 && multiset(a) == multiset(b)
    ensures multiset(Survivors(a, med, deviation)) == multiset(Survivors(b, med, deviation))
  {
    forall x: Spot ensures multiset(Survivors(a, med, deviation))[x] == multiset(Survivors(b, med, deviation))[x] {
      SurvivorBag(a, med, deviation, x);
      SurvivorBag(b, med, deviation, x);
    }
  }

  lemma MedianPermutable(xs: seq<real>, ys: seq<real>)
    requires multiset(xs) == multiset(ys)
    ensures Median(xs) == Median(ys)
  {
    SortedIsUnique(Sort(xs), Sort(ys));
  }

  lemma MeanPermutable(a: seq<Spot>, b: seq<Spot>, c: Config)
    requires multiset(a) == multiset(b)
    ensures Mean(a, c) == Mean(b, c)
  {
    assert |a| == |multiset(a)| == |b|;
    SumsArePermutable(a, b);
  }

  /** The price, or the reason there is none, does not depend on the order in
      which the pools are listed. */
  lemma AggregateIgnoresOrder(a: seq<Spot>, b: seq<Spot>, c: Config)
    requires multiset(a) == multiset(b)
    ensures Aggregate(a, c) == Aggregate(b, c)
  {
    assert |a| == |multiset(a)| == |b|;
    SumsArePermutable(a, b);
    MedianPermutable(Prices(a), Prices(b));
    var med := Median(Prices(a));
    if med > 0.0 {
      SurvivorsPermutable(a, b, med, c.maxDeviation);
      MeanPermutable(Survivors(a, med, c.maxDeviation), Survivors(b, med, c.maxDeviation), c);
    }
  }

  // ---- A majority bounds the price ----

  function Count(xs: seq<real>, lo: real, hi: real): nat {
    if xs == [] then 0 else (if lo <= xs[0] <= hi then 1 else 0) + Count(xs[1..], lo, hi)
  }

  lemma {:induction false} CountInsert(x: real, xs: seq<real>, lo: real, hi: real)
    ensures Count(InsertSorted(x, xs), lo, hi) == (if lo <= x <= hi then 1 else 0) + Count(xs, lo, hi)
    decreases |xs|
  {
    if xs == [] || x <= xs[0] {
      assert ([x] + xs)[1..] == xs;
    } else {
      CountInsert(x, xs[1..], lo, hi);
      assert InsertSorted(x, xs)[1..] == InsertSorted(x, xs[1..]);
    }
  }

  lemma {:induction false} CountSort(xs: seq<real>, lo: real, hi: real)
    ensures Count(Sort(xs), lo, hi) == Count(xs, lo, hi)
    decreases |xs|
  {
    if xs != [] {
      CountSort(xs[1..], lo, hi);
      CountInsert(xs[0], Sort(xs[1..]), lo, hi);
    }
  }

  /** In a sorted list, a value above the range at k leaves only the first k in
      range, one below it only those after k. */
  lemma {:induction false} CountBeyond(s: seq<real>, k: nat, lo: real, hi: real)
    requires Sorted(s) && k < |s|
    ensures s[k] > hi ==> Count(s, lo, hi) <= k
    ensures s[k] < lo ==> Count(s, lo, hi) <= |s| - k - 1
    decreases |s|
  {
    CountAtMost(s[1..], lo, hi);
    if k == 0 {
      if s[0] > hi { CountNone(s, lo, hi); }
    } else {
      CountBeyond(s[1..], k - 1, lo, hi);
    }
  }

  lemma {:induction false} CountAtMost(s: seq<real>, lo: real, hi: real)
    ensures Count(s, lo, hi) <= |s|
    decreases |s|
  {
    if s != [] { CountAtMost(s[1..], lo, hi); }
  }

  lemma {:induction false} CountNone(s: seq<real>, lo: real, hi: real)
    requires forall i :: 0 <= i < |s| ==> s[i] > hi
    ensures Count(s, lo, hi) == 0
    decreases |s|
  {
    if s != [] { CountNone(s[1..], lo, hi); }
  }

  lemma CountedInRange(s: seq<real>, k: nat, lo: real, hi: real)
    requires Sorted(s) && k < |s| && Count(s, lo, hi) > k && Count(s, lo, hi) > |s| - k - 1
    ensures lo <= s[k] <= hi
  {
    CountBeyond(s, k, lo, hi);
  }

  lemma MajorityHoldsTheMedian(xs: seq<real>, lo: real, hi: real)
    requires 2 * Count(xs, lo, hi) > |xs|
    ensures lo <= Median(xs) <= hi
  {
    var s := Sort(xs);
    var n := |s|;
    CountSort(xs, lo, hi);
    CountAtMost(xs, lo, hi);
    CountedInRange(s, n / 2, lo, hi);
    if n % 2 == 0 { CountedInRange(s, n / 2 - 1, lo, hi); }
  }

  lemma {:induction false} SurvivorsAreNear(spots: seq<Spot>, med: real, deviation: real)
    requires med > 0.0
    ensures forall s :: s in Survivors(spots, med, deviation) ==> s in spots && Near(s, med, deviation)
    decreases |spots|
  {
    if spots != [] { SurvivorsAreNear(spots[..|spots| - 1], med, deviation); }
  }

  lemma SumsSplit(s: seq<Spot>)
    requires s != []
    ensures Weighted(s) == Weighted(s[..|s| - 1]) + Worth(s[|s| - 1])
    ensures Liquidity(s) == Liquidity(s[..|s| - 1]) + TvlOf(s[|s| - 1])
  {
    assert s[..|s| - 1 + 1] == s;
    SumSnoc(Worth, s, |s| - 1);
    SumSnoc(TvlOf, s, |s| - 1);
  }

  /** A weighted sum with non-negative weights lies between its extremes. */
  lemma {:induction false} WeightedWithin(s: seq<Spot>, least: real, greatest: real)
    requires forall x :: x in s ==> least <= x.price <= greatest && x.tvl >= 0.0
    ensures Within(Weighted(s), Liquidity(s), least, greatest)
    decreases |s|
  {
    if s != [] {
      var rest := s[..|s| - 1];
      var x := s[|s| - 1];
      WeightedWithin(rest, least, greatest);
      SumsSplit(s);
      AddedWithin(least, greatest, Liquidity(rest), Weighted(rest), x.price, x.tvl);
    }
  }

  predicate Within(sum: real, total: real, least: real, greatest: real) {
    Product(least, total) <= sum <= Product(greatest, total)
  }

  lemma AddedWithin(least: real, greatest: real, total: real, sum: real, price: real, tvl: real)
    requires least <= price <= greatest && tvl >= 0.0 && Within(sum, total, least, greatest)
    ensures Within(sum + Product(price, tvl), total + tvl, least, greatest)
  {
    Scale(least, price, tvl);
    Scale(price, greatest, tvl);
    assert least * (total + tvl) == least * total + least * tvl;
    assert greatest * (total + tvl) == greatest * total + greatest * tvl;
  }

  lemma Scale(a: real, b: real, w: real)
    requires a <= b && w >= 0.0
    ensures a * w <= b * w
  {
  }

  lemma PositiveProduct(y: real, c: real)
    requires c > 0.0
    ensures y > 0.0 ==> y * c > 0.0
  {
  }

  lemma QuotientWithin(sum: real, total: real, least: real, greatest: real)
    requires total > 0.0 && least * total <= sum <= greatest * total
    ensures least <= sum / total <= greatest
  {
    var q := sum / total;
    assert q * total == sum;
    PositiveProduct(least - q, total);
    PositiveProduct(q - greatest, total);
    assert (least - q) * total == least * total - sum && (q - greatest) * total == sum - greatest * total;
  }

  /** At most the fraction d below lo, or above hi. */
  predicate Around(p: real, lo: real, hi: real, d: real) {
    lo * (1.0 - d) <= p <= hi * (1.0 + d)
  }

  lemma NearBounds(price: real, med: real, d: real)
    requires med > 0.0 && Abs(price - med) / med <= d
    ensures Around(price, med, med, d)
  {
    var gap := Abs(price - med);
    assert gap / med * med == gap;
    Scale(gap / med, d, med);
    assert med * (1.0 - d) == med - d * med && med * (1.0 + d) == med + d * med;
  }

  lemma MeanWithin(survivors: seq<Spot>, c: Config, least: real, greatest: real)
    requires forall s :: s in survivors ==> least <= s.price <= greatest && s.tvl >= 0.0
    requires Mean(survivors, c).Price?
    ensures least <= Mean(survivors, c).value <= greatest && c.sanityMin <= Mean(survivors, c).value <= c.sanityMax
  {
    WeightedWithin(survivors, least, greatest);
    QuotientWithin(Weighted(survivors), Liquidity(survivors), least, greatest);
  }

  /** The survivors of an aggregation. */
  function Kept(spots: seq<Spot>, c: Config): seq<Spot> {
    var med := Median(Prices(spots));
    if med <= 0.0 then [] else Survivors(spots, med, c.maxDeviation)
  }

  /** Any bounds on the survivors' prices bound the price; it is inside the
      sanity band. */
  lemma PriceBetweenSurvivors(spots: seq<Spot>, c: Config, least: real, greatest: real)
    requires forall s :: s in spots ==> s.tvl >= 0.0
    requires forall s :: s in Kept(spots, c) ==> least <= s.price <= greatest
    ensures Aggregate(spots, c).Price? ==>
      least <= Aggregate(spots, c).value <= greatest && c.sanityMin <= Aggregate(spots, c).value <= c.sanityMax
  {
    if Aggregate(spots, c).Price? {
      SurvivorsAreNear(spots, Median(Prices(spots)), c.maxDeviation);
      MeanWithin(Kept(spots, c), c, least, greatest);
    }
  }

  lemma SurvivorsAround(spots: seq<Spot>, med: real, d: real)
    requires med > 0.0
    ensures forall s :: s in Survivors(spots, med, d) ==> s in spots && Around(s.price, med, med, d)
  {
    SurvivorsAreNear(spots, med, d);
    forall s | s in Survivors(spots, med, d) ensures Around(s.price, med, med, d) {
      NearBounds(s.price, med, d);
    }
  }

  lemma MeanAround(survivors: seq<Spot>, c: Config, med: real)
    requires forall s :: s in survivors ==> Around(s.price, med, med, c.maxDeviation) && s.tvl >= 0.0
    requires Mean(survivors, c).Price?
    ensures Around(Mean(survivors, c).value, med, med, c.maxDeviation)
  {
    MeanWithin(survivors, c, med * (1.0 - c.maxDeviation), med * (1.0 + c.maxDeviation));
  }

  /** The price is within maxDeviation of the median. */
  lemma PriceNearTheMedian(spots: seq<Spot>, c: Config)
    requires forall s :: s in spots ==> s.tvl >= 0.0
    ensures var med := Median(Prices(spots));
      Aggregate(spots, c).Price? ==> med > 0.0 && Around(Aggregate(spots, c).value, med, med, c.maxDeviation)
  {
    if Aggregate(spots, c).Price? {
      var med := Median(Prices(spots));
      SurvivorsAround(spots, med, c.maxDeviation);
      MeanAround(Kept(spots, c), c, med);
    }
  }

  lemma Widen(p: real, lo: real, med: real, hi: real, d: real)
    requires 0.0 < lo <= med <= hi && 0.0 <= d && (d <= 1.0 || p >= 0.0) && Around(p, med, med, d)
    ensures Around(p, lo, hi, d)
  {
    WidenAbove(p, med, hi, d);
    WidenBelow(p, lo, med, d);
  }

  lemma WidenAbove(p: real, med: real, hi: real, d: real)
    requires med <= hi && 0.0 <= d && p <= med * (1.0 + d)
    ensures p <= hi * (1.0 + d)
  {
    Scale(med, hi, 1.0 + d);
  }

  lemma WidenBelow(p: real, lo: real, med: real, d: real)
    requires 0.0 < lo <= med && (d <= 1.0 || p >= 0.0) && med * (1.0 - d) <= p
    ensures lo * (1.0 - d) <= p
  {
    if d <= 1.0 {
      Scale(lo, med, 1.0 - d);
    } else {
      Scale(0.0, lo, d - 1.0);
      assert lo * (1.0 - d) == -(lo * (d - 1.0));
    }
  }

  lemma {:induction false} SurvivorMeansTolerance(spots: seq<Spot>, med: real, d: real)
    requires med > 0.0 && d < 0.0
    ensures Survivors(spots, med, d) == []
    decreases |spots|
  {
    if spots != [] {
      SurvivorMeansTolerance(spots[..|spots| - 1], med, d);
      var gap := Abs(spots[|spots| - 1].price - med);
      assert gap / med * med == gap;
      if gap / med <= d { Scale(gap / med, d, med); }
    }
  }

  /** If a strict majority of the pools read quote within [lo, hi], no price or
      non-negative weight the others report moves the result outside
      [lo(1-d), hi(1+d)]; it stays inside the sanity band. */
  lemma MajorityBoundsThePrice(spots: seq<Spot>, c: Config, lo: real, hi: real)
    requires lo > 0.0 && forall s :: s in spots ==> s.tvl >= 0.0
    requires c.maxDeviation <= 1.0 || forall s :: s in spots ==> s.price >= 0.0
    requires 2 * Count(Prices(spots), lo, hi) > |spots|
    ensures Aggregate(spots, c).Price? ==>
      && Around(Aggregate(spots, c).value, lo, hi, c.maxDeviation)
      && c.sanityMin <= Aggregate(spots, c).value <= c.sanityMax
  {
    if Aggregate(spots, c).Price? {
      var med := Median(Prices(spots));
      MajorityHoldsTheMedian(Prices(spots), lo, hi);
      PriceNearTheMedian(spots, c);
      if c.maxDeviation < 0.0 { SurvivorMeansTolerance(spots, med, c.maxDeviation); }
      if c.maxDeviation > 1.0 {
        SurvivorsAreNear(spots, med, c.maxDeviation);
        PriceNotNegative(Kept(spots, c), c);
      }
      Widen(Aggregate(spots, c).value, lo, med, hi, c.maxDeviation);
    }
  }

  lemma UpperBound(s: seq<Spot>) returns (bound: real)
    ensures forall x :: x in s ==> x.price <= bound
    decreases |s|
  {
    bound := 0.0;
    if s != [] {
      bound := UpperBound(s[1..]);
      bound := if s[0].price > bound then s[0].price else bound;
    }
  }

  lemma PriceNotNegative(survivors: seq<Spot>, c: Config)
    requires forall s :: s in survivors ==> s.price >= 0.0 && s.tvl >= 0.0
    requires Mean(survivors, c).Price?
    ensures Mean(survivors, c).value >= 0.0
  {
    var greatest := UpperBound(survivors);
    MeanWithin(survivors, c, 0.0, greatest);
  }

  lemma SumOfThree(x: real, y: real, z: real)
    ensures Sum([x, y, z]) == x + y + z
  {
    assert [x, y, z][..2] == [x, y] && [x, y][..1] == [x] && [x][..0] == [];
    assert Sum([x]) == x && Sum([x, y]) == x + y;
  }

  lemma MapOfThree(f: Spot -> real, a: Spot, b: Spot, d: Spot)
    ensures Map(f, [a, b, d]) == [f(a), f(b), f(d)] && Sum(Map(f, [a, b, d])) == f(a) + f(b) + f(d)
  {
    SumOfThree(f(a), f(b), f(d));
    assert Map(f, [a, b, d]) == [f(a), f(b), f(d)];
  }

  lemma CountOfThree(x: real, y: real, z: real, lo: real, hi: real)
    ensures lo <= x <= hi && lo <= y <= hi ==> Count([x, y, z], lo, hi) >= 2
  {
    var s := [x, y, z];
    assert s[1..] == [y, z] && s[1..][1..] == [z];
  }

  lemma AllThreeSurvive(a: Spot, b: Spot, d: Spot, med: real, deviation: real)
    requires med > 0.0 && Near(a, med, deviation) && Near(b, med, deviation) && Near(d, med, deviation)
    ensures Survivors([a, b, d], med, deviation) == [a, b, d]
  {
    var s := [a, b, d];
    assert Survivors([a], med, deviation) == [a];
    assert [a, b][..1] == [a] && Survivors([a, b], med, deviation) == [a, b];
    assert s[..2] == [a, b];
  }

  /** With a tolerance above 1 and a negative quote (which computeSpot never
      gives) the lower bound is lost. */
  lemma WideToleranceLosesTheBound()
    ensures var spots := [Spot(2.0, 1.0), Spot(2.0, 1.0), Spot(-1.5, 98.0)];
      var c := Config(3, 2, 2.0, -100.0, 100.0);
      && 2 * Count(Prices(spots), 1.0, 2.0) > |spots|
      && Aggregate(spots, c) == Price(-1.43)
      && !Around(-1.43, 1.0, 2.0, 2.0)
  {
    var a, b, d := Spot(2.0, 1.0), Spot(2.0, 1.0), Spot(-1.5, 98.0);
    MapOfThree(PriceOf, a, b, d);
    CountOfThree(2.0, 2.0, -1.5, 1.0, 2.0);
    assert Median(Prices([a, b, d])) == 2.0 by {
      CountOfThree(2.0, 2.0, -1.5, 2.0, 2.0);
      MajorityHoldsTheMedian([2.0, 2.0, -1.5], 2.0, 2.0);
    }
    AllThreeSurvive(a, b, d, 2.0, 2.0);
    WideMean(a, b, d);
  }

  lemma WideMean(a: Spot, b: Spot, d: Spot)
    requires a == b == Spot(2.0, 1.0) && d == Spot(-1.5, 98.0)
    ensures Mean([a, b, d], Config(3, 2, 2.0, -100.0, 100.0)) == Price(-1.43)
  {
    MapOfThree(Worth, a, b, d);
    MapOfThree(TvlOf, a, b, d);
    assert Weighted([a, b, d]) == -143.0;
    assert Liquidity([a, b, d]) == 100.0;
  }
}
