/** What one pool's spot means: USD per WFLOW, whichever token comes first, and
    which pools are dropped. */
module OraclePools {
  import opened Common
  import opened EvmDecode
  import opened OracleBatch
  import Spot = OracleSpot
  import Agg = OracleAggregate

  /** The human amounts of a pool's two legs. */
  function WflowLeg(p: Pool, r0: int, r1: int): real {
    Spot.Amount(if p.wflowIsToken0 then r0 else r1, 18)
  }

  function StableLeg(p: Pool, r0: int, r1: int): real {
    Spot.Amount(if p.wflowIsToken0 then r1 else r0, p.stableDec)
  }

  /** At that price the WFLOW leg is worth the stable one: it is USD per WFLOW. */
  predicate Balances(p: Pool, r0: int, r1: int, price: real) {
    price > 0.0 && WflowLeg(p, r0, r1) * price == StableLeg(p, r0, r1)
  }

  lemma ReservesBalance(p: Pool, r0: int, r1: int)
    requires r0 > 0 && r1 > 0
    ensures Balances(p, r0, r1, Spot.ReserveSpot(r0, r1, p.wflowIsToken0, p.stableDec))
  {
    var (wflow, stable) := if p.wflowIsToken0 then (r0, r1) else (r1, r0);
    Spot.QuotientOf(stable as real, wflow as real, Spot.Pow10(Spot.WFLOW_DECIMALS), Spot.Pow10(p.stableDec));
    Spot.WeightIsTheStableLeg(stable, wflow, p.stableDec);
  }

  /** A spot that balances the legs, weighed by the stable one. */
  predicate Prices(p: Pool, r0: int, r1: int, spot: Agg.Spot) {
    Balances(p, r0, r1, spot.price) && spot.tvl == StableLeg(p, r0, r1)
  }

  lemma WeighedPrices(p: Pool, r0: int, r1: int)
    requires r0 > 0 && r1 > 0
    ensures var spot := Weigh(Spot.ReserveSpot(r0, r1, p.wflowIsToken0, p.stableDec),
                              if p.wflowIsToken0 then r0 else r1);
      spot.Some? && Prices(p, r0, r1, spot.value)
  {
    ReservesBalance(p, r0, r1);
  }

  lemma ReservesWeighed(p: Pool, results: seq<Raw>, r0: int, r1: int)
    requires p.kind.V2? && |results| == 1 && DecodeReserves(results[0]) == Some((r0, r1))
    ensures ComputeSpot(p, results) ==
      if r0 <= 0 || r1 <= 0 then None
      else Weigh(Spot.ReserveSpot(r0, r1, p.wflowIsToken0, p.stableDec), if p.wflowIsToken0 then r0 else r1)
  {
  }

  lemma RootWeighed(p: Pool, results: seq<Raw>, root: int)
    requires p.kind.V3? && |results| == 2 && DecodeSlot0(results[0]) == Some(root)
    requires root > 0 ==> Spot.SpotFromSqrtPriceX96(root, p.wflowIsToken0, p.stableDec) > 0.0
    ensures var balance := DecodeUint256(results[1]);
      ComputeSpot(p, results) ==
        if root <= 0 || balance.None? || balance.value < 0 then None
        else Weigh(Spot.SpotFromSqrtPriceX96(root, p.wflowIsToken0, p.stableDec), balance.value)
  {
  }

  /** A v2 pool yields a spot exactly when its reserves decode and are positive; its
      price balances its legs and its weight is the amount of the stable one. */
  lemma ReservePoolSpot(p: Pool, results: seq<Raw>)
    requires p.kind.V2? && |results| == 1
    ensures var reserves := DecodeReserves(results[0]);
      var spot := ComputeSpot(p, results);
      && (spot.Some? <==> reserves.Some? && reserves.value.0 > 0 && reserves.value.1 > 0)
      && (spot.Some? ==> Prices(p, reserves.value.0, reserves.value.1, spot.value))
  {
    var reserves := DecodeReserves(results[0]);
    if reserves.Some? {
      var (r0, r1) := reserves.value;
      ReservesWeighed(p, results, r0, r1);
      if r0 > 0 && r1 > 0 { WeighedPrices(p, r0, r1); }
    }
  }

  lemma RootSpotIsPositive(root: int, wflowIsToken0: bool, stableDec: int)
    requires root > 0
    ensures Spot.SpotFromSqrtPriceX96(root, wflowIsToken0, stableDec) > 0.0
  {
    var raw, scale := Spot.RawPrice(root as real), Spot.RatPow10(Spot.WFLOW_DECIMALS - stableDec);
    Spot.ScaleIsPositive(Spot.WFLOW_DECIMALS - stableDec);
    assert root as real * root as real > 0.0;
    Spot.PositiveQuotient(root as real * root as real, Spot.Q192);
    Spot.PositiveQuotient(scale, raw);
    assert raw * scale > 0.0;
  }

  /** A spot quoted by a root and weighed by a balance; it balances any reserves of
      which that is the exact root. */
  predicate RootPrices(p: Pool, root: int, balance: int, r0: int, r1: int, spot: Agg.Spot) {
    && spot.price == Spot.SpotFromSqrtPriceX96(root, p.wflowIsToken0, p.stableDec) > 0.0
    && spot.tvl == Spot.Amount(balance, 18) * spot.price
    && (IsExactRoot(p, root, r0, r1) ==> Balances(p, r0, r1, spot.price))
  }

  predicate IsExactRoot(p: Pool, root: int, r0: int, r1: int) {
    r0 > 0 && r1 > 0 && Spot.IsRootOf(root as real, r0, r1) && p.stableDec >= 0
  }

  lemma ExactRootBalances(p: Pool, root: int, r0: int, r1: int)
    requires IsExactRoot(p, root, r0, r1)
    ensures Balances(p, r0, r1, Spot.SpotFromSqrtPriceX96(root, p.wflowIsToken0, p.stableDec))
  {
    Spot.SpotsAgreeIff(root, r0, r1, p.wflowIsToken0, p.stableDec);
    ReservesBalance(p, r0, r1);
  }

  lemma WeighedRoot(p: Pool, root: int, balance: int, r0: int, r1: int)
    requires root > 0 && balance >= 0
    ensures var spot := Weigh(Spot.SpotFromSqrtPriceX96(root, p.wflowIsToken0, p.stableDec), balance);
      spot.Some? && RootPrices(p, root, balance, r0, r1, spot.value)
  {
    RootSpotIsPositive(root, p.wflowIsToken0, p.stableDec);
    if IsExactRoot(p, root, r0, r1) { ExactRootBalances(p, root, r0, r1); }
  }

  /** A v3 pool yields a spot exactly when its root decodes to a positive number and
      its WFLOW balance to one that is not negative. */
  lemma RootPoolSpot(p: Pool, results: seq<Raw>, r0: int, r1: int)
    requires p.kind.V3? && |results| == 2
    ensures var root, balance := DecodeSlot0(results[0]), DecodeUint256(results[1]);
      var spot := ComputeSpot(p, results);
      && (spot.Some? <==> root.Some? && root.value > 0 && balance.Some? && balance.value >= 0)
      && (spot.Some? ==> RootPrices(p, root.value, balance.value, r0, r1, spot.value))
  {
    var root, balance := DecodeSlot0(results[0]), DecodeUint256(results[1]);
    if root.Some? {
      if root.value > 0 { RootSpotIsPositive(root.value, p.wflowIsToken0, p.stableDec); }
      RootWeighed(p, results, root.value);
      if root.value > 0 && balance.Some? && balance.value >= 0 { WeighedRoot(p, root.value, balance.value, r0, r1); }
    }
  }

  lemma UnknownPoolIsDropped(p: Pool, results: seq<Raw>)
    requires p.kind.Unknown?
    ensures ComputeSpot(p, results).None?
  {
  }

  /** The same pool with its tokens listed the other way round. */
  function Mirrored(p: Pool): Pool {
    p.(wflowIsToken0 := !p.wflowIsToken0)
  }

  lemma MirroredReserves(r0: int, r1: int, wflowIsToken0: bool, stableDec: int)
    ensures Spot.ReserveSpot(r1, r0, !wflowIsToken0, stableDec) == Spot.ReserveSpot(r0, r1, wflowIsToken0, stableDec)
  {
  }

  /** Listing the tokens the other way round changes nothing. */
  lemma MirroredPoolQuotesTheSame(p: Pool, results: seq<Raw>, swapped: seq<Raw>, r0: int, r1: int)
    requires p.kind.V2? && |results| == |swapped| == 1
    requires DecodeReserves(results[0]) == Some((r0, r1)) && DecodeReserves(swapped[0]) == Some((r1, r0))
    ensures ComputeSpot(Mirrored(p), swapped) == ComputeSpot(p, results)
  {
    ReservesWeighed(p, results, r0, r1);
    ReservesWeighed(Mirrored(p), swapped, r1, r0);
    MirroredReserves(r0, r1, p.wflowIsToken0, p.stableDec);
  }

  // ---- From the chain to the price ----

  lemma DirectReserves(p: Pool, chain: Call -> Raw)
    requires p.kind.V2?
    ensures DirectSpot(p, chain) == ComputeSpot(p, [chain(GetReserves(p.address))])
  {
    var results := seq(|CallsOf(p)|, i requires 0 <= i < |CallsOf(p)| => chain(CallsOf(p)[i]));
    assert results == [chain(GetReserves(p.address))];
  }

  lemma DirectRoot(p: Pool, chain: Call -> Raw)
    requires p.kind.V3?
    ensures DirectSpot(p, chain) == ComputeSpot(p, [chain(Slot0(p.address)), chain(WflowBalanceOf(p.address))])
  {
    var results := seq(|CallsOf(p)|, i requires 0 <= i < |CallsOf(p)| => chain(CallsOf(p)[i]));
    assert results == [chain(Slot0(p.address)), chain(WflowBalanceOf(p.address))];
  }

  /** The chain's own accounts of a pool: the reserves of a v2 pool, or reserves of
      which a v3 pool stores the exact root, with its WFLOW balance. */
  predicate HasReserves(p: Pool, chain: Call -> Raw, r0: int, r1: int) {
    && r0 > 0 && r1 > 0
    && match p.kind
       case V2 => DecodeReserves(chain(GetReserves(p.address))) == Some((r0, r1))
       case V3 =>
         var root, balance := DecodeSlot0(chain(Slot0(p.address))), DecodeUint256(chain(WflowBalanceOf(p.address)));
         && root.Some? && root.value > 0 && IsExactRoot(p, root.value, r0, r1)
         && balance.Some? && balance.value >= 0
       case Unknown => false
  }

  /** End to end, for a pool of either kind and either token order in a batch of any
      pools: if all its calls were answered honestly, whatever became of the others
      and in whatever order, its spot balances its legs; otherwise it is dropped. */
  lemma AnsweredPoolPricesItsLegs(pools: seq<Pool>, responses: seq<Response>, chain: Call -> Raw, i: nat,
      r0: int, r1: int)
    requires Honest(Batch(pools), responses, chain) && i < |Layout(pools)|
    requires HasReserves(Layout(pools)[i].pool, chain, r0, r1)
    ensures EndOf(Layout(pools)[i]) <= |Batch(pools)|
    ensures var r := Layout(pools)[i];
      var spot := SpotOf(r, Slots(|Batch(pools)|, responses));
      && (spot.Some? <==> FullyAnswered(r, responses))
      && (spot.Some? ==>
            && Balances(r.pool, r0, r1, spot.value.price)
            && (r.pool.kind.V2? ==> Prices(r.pool, r0, r1, spot.value))
            && (r.pool.kind.V3? ==>
                  RootPrices(r.pool, DecodeSlot0(chain(Slot0(r.pool.address))).value,
                             DecodeUint256(chain(WflowBalanceOf(r.pool.address))).value, r0, r1, spot.value)))
  {
    LayoutTiles(pools);
    var r := Layout(pools)[i];
    assert SliceIs(r, Batch(pools));
    EachPoolDecodesItsOwnAnswers(Layout(pools), Batch(pools), responses, chain, i);
    if r.pool.kind.V2? {
      DirectReserves(r.pool, chain);
      ReservePoolSpot(r.pool, [chain(GetReserves(r.pool.address))]);
    } else {
      DirectRoot(r.pool, chain);
      RootPoolSpot(r.pool, [chain(Slot0(r.pool.address)), chain(WflowBalanceOf(r.pool.address))], r0, r1);
    }
  }

  /** Every pool's legs exchange WFLOW at between lo and hi USD. */
  ghost predicate Exchange(layout: seq<PoolRead>, chain: Call -> Raw, lo: real, hi: real) {
    forall i :: 0 <= i < |layout| ==> ExchangesWithin(layout[i].pool, chain, lo, hi)
  }

  ghost predicate ExchangesWithin(p: Pool, chain: Call -> Raw, lo: real, hi: real) {
    exists r0, r1 :: HasReserves(p, chain, r0, r1) && LegsWithin(p, r0, r1, lo, hi)
  }

  predicate LegsWithin(p: Pool, r0: int, r1: int, lo: real, hi: real) {
    lo * WflowLeg(p, r0, r1) <= StableLeg(p, r0, r1) <= hi * WflowLeg(p, r0, r1)
  }

  lemma Gap(a: real, b: real, w: real)
    requires w > 0.0 && a < b
    ensures a * w < b * w
  {
    assert (b - a) * w > 0.0;
  }

  lemma PriceWithin(w: real, price: real, stable: real, lo: real, hi: real)
    requires w > 0.0 && w * price == stable && lo * w <= stable <= hi * w
    ensures lo <= price <= hi
  {
    if price < lo { Gap(price, lo, w); }
    if price > hi { Gap(hi, price, w); }
  }

  lemma BalanceWithin(p: Pool, r0: int, r1: int, price: real, lo: real, hi: real)
    requires r0 > 0 && r1 > 0 && Balances(p, r0, r1, price) && LegsWithin(p, r0, r1, lo, hi)
    ensures lo <= price <= hi
  {
    Spot.PositiveQuotient(if p.wflowIsToken0 then r0 as real else r1 as real, Spot.Pow10(18));
    PriceWithin(WflowLeg(p, r0, r1), price, StableLeg(p, r0, r1), lo, hi);
  }

  lemma SpotWithin(pools: seq<Pool>, responses: seq<Response>, chain: Call -> Raw, i: nat, lo: real, hi: real)
    requires Honest(Batch(pools), responses, chain) && i < |Layout(pools)|
    requires ExchangesWithin(Layout(pools)[i].pool, chain, lo, hi)
    ensures EndOf(Layout(pools)[i]) <= |Batch(pools)|
    ensures var spot := SpotOf(Layout(pools)[i], Slots(|Batch(pools)|, responses));
      spot.Some? ==> lo <= spot.value.price <= hi
  {
    var p := Layout(pools)[i].pool;
    var r0, r1 :| HasReserves(p, chain, r0, r1) && LegsWithin(p, r0, r1, lo, hi);
    AnsweredPoolPricesItsLegs(pools, responses, chain, i, r0, r1);
    var spot := SpotOf(Layout(pools)[i], Slots(|Batch(pools)|, responses));
    if spot.Some? { BalanceWithin(p, r0, r1, spot.value.price, lo, hi); }
  }

  lemma {:induction false} SpotsWithin(pools: seq<Pool>, layout: seq<PoolRead>, responses: seq<Response>,
      chain: Call -> Raw, lo: real, hi: real)
    requires Honest(Batch(pools), responses, chain) && layout <= Layout(pools)
    requires Exchange(layout, chain, lo, hi) && InRange(layout, |Batch(pools)|)
    ensures forall s :: s in SpotsOf(layout, Slots(|Batch(pools)|, responses)) ==>
      lo <= s.price <= hi && s.tvl >= 0.0
    decreases |layout|
  {
    if layout != [] {
      SpotsWithin(pools, layout[..|layout| - 1], responses, chain, lo, hi);
      SpotWithin(pools, responses, chain, |layout| - 1, lo, hi);
      DecodedSpotsArePriced(layout, Slots(|Batch(pools)|, responses));
    }
  }

  /** The price refresh makes of honest answers is what the pools' own tokens
      exchange for: between any bounds that hold of all of them. */
  lemma PriceIsWhatThePoolsExchangeFor(pools: seq<Pool>, responses: seq<Response>, chain: Call -> Raw,
      c: Agg.Config, lo: real, hi: real)
    requires Honest(Batch(pools), responses, chain) && Exchange(Layout(pools), chain, lo, hi)
    ensures InRange(Layout(pools), |Batch(pools)|)
    ensures var outcome := Agg.Aggregate(SpotsOf(Layout(pools), Slots(|Batch(pools)|, responses)), c);
      outcome.Price? ==> lo <= outcome.value <= hi
  {
    LayoutInRange(pools);
    SpotsWithin(pools, Layout(pools), responses, chain, lo, hi);
    var spots := SpotsOf(Layout(pools), Slots(|Batch(pools)|, responses));
    if Agg.Median(Agg.Prices(spots)) > 0.0 {
      Agg.SurvivorsAreNear(spots, Agg.Median(Agg.Prices(spots)), c.maxDeviation);
    }
    Agg.PriceBetweenSurvivors(spots, c, lo, hi);
  }
}
