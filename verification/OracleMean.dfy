/** How the aggregated price depends on its quotes: weight by weight, and when
    there is a price at all. */
module OracleMean {
  import opened OracleAggregate

  // ---- Weights ----

  function Deposited(spots: seq<Spot>, i: nat, added: real): seq<Spot>
    requires i < |spots|
  {
    spots[i := spots[i].(tvl := spots[i].tvl + added)]
  }

  lemma SamePrices(spots: seq<Spot>, i: nat, added: real)
    requires i < |spots|
    ensures Prices(Deposited(spots, i, added)) == Prices(spots)
  {
  }

  /** What the survivors gain when liquidity is added to one pool. */
  function Gain(x: Spot, med: real, deviation: real, gain: real): real
    requires med > 0.0
  {
    if Near(x, med, deviation) then gain else 0.0
  }

  lemma {:induction false} SumsGain(spots: seq<Spot>, i: nat, added: real, med: real, deviation: real)
    requires i < |spots| && med > 0.0
    ensures var before := Survivors(spots, med, deviation);
      var after := Survivors(Deposited(spots, i, added), med, deviation);
      && |after| == |before|
      && Liquidity(after) == Liquidity(before) + Gain(spots[i], med, deviation, added)
      && Weighted(after) == Weighted(before) + Gain(spots[i], med, deviation, Product(spots[i].price, added))
    decreases |spots|
  {
    var last := |spots| - 1;
    var after := Deposited(spots, i, added);
    var a, b := Survivors(spots[..last], med, deviation), Survivors(after[..last], med, deviation);
    if i < last {
      SumsGain(spots[..last], i, added, med, deviation);
      assert after[..last] == Deposited(spots[..last], i, added);
    } else {
      assert after[..last] == spots[..last];
    }
    SumsAppend(a, spots[last]);
    SumsAppend(b, after[last]);
    WorthGrows(spots[i], added);
  }

  lemma SumsAppend(s: seq<Spot>, x: Spot)
    ensures Weighted(s + [x]) == Weighted(s) + Worth(x) && Liquidity(s + [x]) == Liquidity(s) + x.tvl
  {
    var t := s + [x];
    assert t[..|s|] == s && t[..|s| + 1] == t;
    SumSnoc(Worth, t, |s|);
    SumSnoc(TvlOf, t, |s|);
  }

  lemma WorthGrows(x: Spot, added: real)
    ensures Worth(x.(tvl := x.tvl + added)) == Worth(x) + Product(x.price, added)
  {
  }

  /** The law of the weighted mean: liquidity added to a pool near the median draws
      the price towards that pool's quote, by its share of all the survivors'
      liquidity; added to an outlier it changes nothing. */
  lemma DepositMovesThePrice(spots: seq<Spot>, i: nat, added: real, c: Config)
    requires i < |spots|
    requires Aggregate(spots, c).Price? && Aggregate(Deposited(spots, i, added), c).Price?
    ensures var before, after := Aggregate(spots, c).value, Aggregate(Deposited(spots, i, added), c).value;
      var med := Median(Prices(spots));
      && med > 0.0
      && (Near(spots[i], med, c.maxDeviation) ==>
            Product(after - before, Liquidity(Kept(spots, c)) + added) == Product(spots[i].price - before, added))
      && (!Near(spots[i], med, c.maxDeviation) ==> after == before)
  {
    SamePrices(spots, i, added);
    var med := Median(Prices(spots));
    SumsGain(spots, i, added, med, c.maxDeviation);
    var kept, now := Kept(spots, c), Kept(Deposited(spots, i, added), c);
    var before, after := Aggregate(spots, c).value, Aggregate(Deposited(spots, i, added), c).value;
    if Near(spots[i], med, c.maxDeviation) {
      Share(Weighted(kept), Liquidity(kept), spots[i].price, added, Weighted(now), before, after);
    }
  }

  lemma Share(sum: real, total: real, price: real, added: real, newSum: real, before: real, after: real)
    requires total > 0.0 && total + added > 0.0 && newSum == sum + Product(price, added)
    requires before == sum / total && after == newSum / (total + added)
    ensures Product(after - before, total + added) == Product(price - before, added)
  {
    assert before * total == sum;
    assert after * (total + added) == sum + price * added;
    assert (after - before) * (total + added) == after * (total + added) - before * total - before * added;
  }

  // ---- The median ----

  function Mirror(s: seq<real>): seq<real> {
    seq(|s|, i requires 0 <= i < |s| => -s[|s| - 1 - i])
  }

  lemma {:induction false} MirrorBag(s: seq<real>, x: real)
    ensures multiset(Mirror(s))[x] == multiset(s)[-x]
    decreases |s|
  {
    if s != [] {
      var last := |s| - 1;
      MirrorBag(s[..last], x);
      assert Mirror(s) == [-s[last]] + Mirror(s[..last]);
      assert s == s[..last] + [s[last]];
    }
  }

  lemma MirrorSorts(s: seq<real>)
    ensures Sort(Mirror(s)) == Mirror(Sort(s))
  {
    forall x: real ensures multiset(Mirror(Sort(s)))[x] == multiset(Sort(Mirror(s)))[x] {
      MirrorBag(Sort(s), x);
      MirrorBag(s, x);
    }
    SortedIsUnique(Sort(Mirror(s)), Mirror(Sort(s)));
  }

  lemma MiddleReflects(a: seq<real>)
    ensures Middle(Mirror(a)) == -Middle(a)
  {
    var n := |a|;
    if n > 0 && n % 2 == 1 {
      assert n - 1 - n / 2 == n / 2;
    } else if n > 0 {
      assert n - 1 - n / 2 == n / 2 - 1;
    }
  }

  /** The median favours neither side: turned upside down, the quotes have their
      median at the same place. */
  lemma MedianReflects(s: seq<real>)
    ensures Median(Mirror(s)) == -Median(s)
  {
    MirrorSorts(s);
    MiddleReflects(Sort(s));
  }

  // ---- When there is a price ----

  lemma MedianOfPositives(s: seq<real>)
    requires s != [] && forall x :: x in s ==> x > 0.0
    ensures Median(s) > 0.0
  {
    forall i | 0 <= i < |Sort(s)| ensures Sort(s)[i] > 0.0 {
      var x := Sort(s)[i];
      assert x in multiset(Sort(s)) && multiset(Sort(s)) == multiset(s);
      assert x in s;
    }
  }

  lemma {:induction false} LiquidityIsZeroIff(s: seq<Spot>)
    requires forall x :: x in s ==> x.tvl >= 0.0
    ensures Liquidity(s) >= 0.0
    ensures Liquidity(s) == 0.0 <==> forall x :: x in s ==> x.tvl == 0.0
    decreases |s|
  {
    if s != [] {
      var front, x := s[..|s| - 1], s[|s| - 1];
      LiquidityIsZeroIff(front);
      SumsAppend(front, x);
      assert s == front + [x];
    }
  }

  predicate IsMean(v: real, kept: seq<Spot>) {
    Product(v, Liquidity(kept)) == Weighted(kept)
  }

  lemma MeanIs(v: real, sum: real, total: real)
    requires total > 0.0
    ensures Product(v, total) == sum <==> v == sum / total
  {
    assert sum / total * total == sum;
    if Product(v, total) == sum { assert (v - sum / total) * total == 0.0; }
  }

  lemma Difference(a: real, b: real, w: real)
    ensures Product(a, w) - Product(b, w) == Product(a - b, w)
  {
  }

  lemma SignOf(gap: real, w: real)
    requires w > 0.0
    ensures gap > 0.0 <==> Product(gap, w) > 0.0
  {
    if gap <= 0.0 { Scale(gap, 0.0, w); }
  }

  lemma Order(a: real, b: real, w: real)
    requires w > 0.0
    ensures a <= b <==> Product(a, w) <= Product(b, w)
  {
    Difference(a, b, w);
    SignOf(a - b, w);
  }

  /** A quote survives exactly up to the tolerance on either side, the edge included. */
  lemma NearIff(s: Spot, med: real, deviation: real)
    requires med > 0.0
    ensures Near(s, med, deviation)
      <==> med - Product(deviation, med) <= s.price <= med + Product(deviation, med)
  {
    var q := Abs(s.price - med) / med;
    assert Product(q, med) == Abs(s.price - med);
    Order(q, deviation, med);
  }

  /** Of spots as they are decoded, each refusal has one cause: too few pools, none
      at all, too few near the median, or none of those with any liquidity. In every
      other case the mean is taken, and refused only outside the sanity band. */
  lemma OutcomeOfPricedSpots(spots: seq<Spot>, c: Config)
    requires forall s :: s in spots ==> s.price > 0.0 && s.tvl >= 0.0
    ensures var o, kept := Aggregate(spots, c), Kept(spots, c);
      var funded := exists s :: s in kept && s.tvl > 0.0;
      && (o == TooFewPools <==> |spots| < c.minPools)
      && (o == NonPositiveMedian <==> |spots| >= c.minPools && spots == [])
      && (o == TooFewSurvivors <==> |spots| >= c.minPools && spots != [] && |kept| < c.minSurvivors)
      && (o == NoLiquidity <==> |spots| >= c.minPools && spots != [] && |kept| >= c.minSurvivors && !funded)
      && (o.Price? || o == OutsideBand <==>
            |spots| >= c.minPools && spots != [] && |kept| >= c.minSurvivors && funded)
      && (o.Price? ==> c.sanityMin <= o.value <= c.sanityMax && IsMean(o.value, kept))
      && (o == OutsideBand ==> forall v :: IsMean(v, kept) ==> !(c.sanityMin <= v <= c.sanityMax))
  {
    if spots == [] {
      assert Prices(spots) == [];
    } else {
      var med := Median(Prices(spots));
      assert Prices(spots)[0] == spots[0].price;
      MedianOfPositives(Prices(spots));
      SurvivorsAreNear(spots, med, c.maxDeviation);
      var kept := Kept(spots, c);
      LiquidityIsZeroIff(kept);
      if Liquidity(kept) > 0.0 {
        forall v ensures IsMean(v, kept) <==> v == Weighted(kept) / Liquidity(kept) {
          MeanIs(v, Weighted(kept), Liquidity(kept));
        }
      }
    }
  }
}
