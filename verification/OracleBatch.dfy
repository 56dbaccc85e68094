/** One batched read of all pools: laying out the calls, routing the answers back
    by id, decoding each pool's own slice, and the cached price. */
module OracleBatch {
  import opened Common
  import opened EvmDecode
  import Spot = OracleSpot
  import Agg = OracleAggregate

  datatype Kind = V2 | V3 | Unknown

  datatype Pool = Pool(address: string, kind: Kind, wflowIsToken0: bool, stableDec: int)

  /** The three calls the oracle makes, on a pool or on the WFLOW token. */
  datatype Call = GetReserves(pool: string) | Slot0(pool: string) | WflowBalanceOf(pool: string)

  datatype PoolRead = PoolRead(pool: Pool, callStart: nat, callCount: nat)

  datatype Response = Response(id: int, result: Raw, isError: bool)

  // ---- Laying out the batch ----

  function CallsOf(p: Pool): seq<Call> {
    match p.kind
    case V2 => [GetReserves(p.address)]
    case V3 => [Slot0(p.address), WflowBalanceOf(p.address)]
    case Unknown => []
  }

  function Batch(pools: seq<Pool>): seq<Call> {
    if pools == [] then [] else Batch(pools[..|pools| - 1]) + CallsOf(pools[|pools| - 1])
  }

  /** Which slice of the batch each readable pool owns. */
  function Layout(pools: seq<Pool>): (r: seq<PoolRead>) {
    if pools == [] then []
    else
      var front, p := pools[..|pools| - 1], pools[|pools| - 1];
      if p.kind.Unknown? then Layout(front) else Layout(front) + [PoolRead(p, |Batch(front)|, |CallsOf(p)|)]
  }

  /** The slices follow each other from 0, one call list after the other. */
  predicate Tiles(layout: seq<PoolRead>, calls: seq<Call>) {
    && (forall i :: 0 <= i < |layout| ==> SliceIs(layout[i], calls))
    && (forall i {:trigger Reached(layout, i)} :: 0 <= i < |layout| ==> layout[i].callStart == Reached(layout, i))
    && |calls| == Reached(layout, |layout|)
  }

  /** Where the first i slices end. */
  function Reached(layout: seq<PoolRead>, i: nat): nat
    requires i <= |layout|
  {
    if i == 0 then 0 else EndOf(layout[i - 1])
  }

  function EndOf(r: PoolRead): nat { r.callStart + r.callCount }

  predicate SliceIs(r: PoolRead, calls: seq<Call>) {
    EndOf(r) <= |calls| && calls[r.callStart..EndOf(r)] == CallsOf(r.pool) && r.callCount == |CallsOf(r.pool)| > 0
  }

  method BuildCalls(pools: seq<Pool>) returns (calls: seq<Call>, layout: seq<PoolRead>)
    ensures calls == Batch(pools) && layout == Layout(pools)
  {
    calls, layout := [], [];
    for i := 0 to |pools|
      invariant calls == Batch(pools[..i]) && layout == Layout(pools[..i])
    {
      assert pools[..i + 1][..i] == pools[..i];
      var start := |calls|;
      match pools[i].kind {
        case V2 => calls := calls + [GetReserves(pools[i].address)];
        case V3 => calls := calls + [Slot0(pools[i].address), WflowBalanceOf(pools[i].address)];
        case Unknown => assert calls + [] == calls; continue;
      }
      layout := layout + [PoolRead(pools[i], start, |calls| - start)];
    }
    assert pools[..|pools|] == pools;
  }

  lemma {:induction false} LayoutTiles(pools: seq<Pool>)
    ensures Tiles(Layout(pools), Batch(pools))
    decreases |pools|
  {
    if pools != [] {
      var front, p := pools[..|pools| - 1], pools[|pools| - 1];
      LayoutTiles(front);
      if p.kind.Unknown? {
        assert Batch(front) + [] == Batch(front);
      } else {
        AppendTile(Layout(front), Batch(front), p);
      }
    }
  }

  lemma SliceStays(r: PoolRead, calls: seq<Call>, more: seq<Call>)
    requires SliceIs(r, calls)
    ensures SliceIs(r, calls + more)
  {
    assert (calls + more)[r.callStart..EndOf(r)] == calls[r.callStart..EndOf(r)];
  }

  lemma AppendTile(layout: seq<PoolRead>, calls: seq<Call>, p: Pool)
    requires Tiles(layout, calls) && !p.kind.Unknown?
    ensures Tiles(layout + [PoolRead(p, |calls|, |CallsOf(p)|)], calls + CallsOf(p))
  {
    var own := CallsOf(p);
    var last := PoolRead(p, |calls|, |own|);
    var longer := layout + [last];
    assert SliceIs(last, calls + own) by {
      assert (calls + own)[|calls|..|calls| + |own|] == own;
    }
    forall i | 0 <= i < |longer| ensures SliceIs(longer[i], calls + own) && longer[i].callStart == Reached(longer, i) {
      assert Reached(longer, i) == Reached(layout, i);
      if i < |layout| { SliceStays(layout[i], calls, own); } else { assert longer[i] == last; }
    }
  }

  lemma {:induction false} TilesInOrder(layout: seq<PoolRead>, calls: seq<Call>, i: nat, j: nat)
    requires Tiles(layout, calls) && i < j < |layout|
    ensures EndOf(layout[i]) <= layout[j].callStart
    decreases j
  {
    assert layout[j].callStart == Reached(layout, j);
    if i < j - 1 { TilesInOrder(layout, calls, i, j - 1); }
  }

  lemma {:induction false} FindTile(layout: seq<PoolRead>, calls: seq<Call>, k: nat, n: nat) returns (i: nat)
    requires Tiles(layout, calls) && n < |layout| && k < EndOf(layout[n])
    ensures i <= n && layout[i].callStart <= k < EndOf(layout[i])
    decreases n
  {
    assert layout[n].callStart == Reached(layout, n);
    if n == 0 || layout[n].callStart <= k { i := n; } else { i := FindTile(layout, calls, k, n - 1); }
  }

  /** Every position of the batch belongs to exactly one pool. */
  lemma SlicesPartitionTheBatch(layout: seq<PoolRead>, calls: seq<Call>, k: nat)
    requires Tiles(layout, calls) && k < |calls|
    ensures exists i :: 0 <= i < |layout| && Owns(layout[i], k)
    ensures forall i, j :: 0 <= i < |layout| && 0 <= j < |layout| && Owns(layout[i], k) && Owns(layout[j], k) ==> i == j
  {
    var i := FindTile(layout, calls, k, |layout| - 1);
    assert Owns(layout[i], k);
    forall i, j | 0 <= i < |layout| && 0 <= j < |layout| && Owns(layout[i], k) && Owns(layout[j], k) ensures i == j {
      if i < j { TilesInOrder(layout, calls, i, j); }
      if j < i { TilesInOrder(layout, calls, j, i); }
    }
  }

  predicate Owns(r: PoolRead, k: nat) { r.callStart <= k < EndOf(r) }

  // ---- Routing by id ----

  /** The slot of one id: the last answer to it that is no error. */
  function Slot(responses: seq<Response>, id: nat): Raw {
    if responses == [] then Missing
    else
      var r := responses[|responses| - 1];
      if r.id == id && !r.isError then r.result else Slot(responses[..|responses| - 1], id)
  }

  function Slots(n: nat, responses: seq<Response>): (r: seq<Raw>)
    ensures |r| == n
  {
    seq(n, id requires 0 <= id < n => Slot(responses, id))
  }

  /** The first reply that is well formed; replies[i] is None when url i failed. */
  function FirstReply(replies: seq<Option<seq<Response>>>): Option<seq<Response>> {
    if replies == [] then None else if replies[0].Some? then replies[0] else FirstReply(replies[1..])
  }

  /** The slots of a batch of n calls; None when every url failed. */
  function Routed(n: nat, replies: seq<Option<seq<Response>>>): (r: Option<seq<Raw>>)
    ensures r.Some? ==> |r.value| == n
  {
    if n == 0 then Some([])
    else if FirstReply(replies).None? then None
    else Some(Slots(n, FirstReply(replies).value))
  }

  method BatchCall(calls: seq<Call>, replies: seq<Option<seq<Response>>>) returns (r: Option<seq<Raw>>)
    ensures r == Routed(|calls|, replies)
  {
    if |calls| == 0 { return Some([]); }
    for u := 0 to |replies|
      invariant FirstReply(replies) == FirstReply(replies[u..])
    {
      if replies[u].None? { continue; }
      var responses := replies[u].value;
      var out := seq(|calls|, _ => Missing);
      for k := 0 to |responses|
        invariant out == Slots(|calls|, responses[..k])
      {
        assert responses[..k + 1][..k] == responses[..k];
        var a := responses[k];
        if a.id < 0 || a.id >= |calls| { continue; }
        if a.isError { continue; }
        out := out[a.id := a.result];
      }
      assert responses[..|responses|] == responses;
      return Some(out);
    }
    return None;
  }

  predicate DistinctIds(responses: seq<Response>) {
    forall i, j :: 0 <= i < j < |responses| ==> responses[i].id != responses[j].id
  }

  /** With distinct ids a slot holds the one answer to its id, wherever it stands. */
  lemma {:induction false} SlotOf(responses: seq<Response>, i: nat)
    requires DistinctIds(responses) && i < |responses| && responses[i].id >= 0
    ensures Slot(responses, responses[i].id) == if responses[i].isError then Missing else responses[i].result
    decreases |responses|
  {
    var last := |responses| - 1;
    if i < last {
      SlotOf(responses[..last], i);
    } else if responses[i].isError {
      NoSlot(responses[..last], responses[i].id);
    }
  }

  lemma {:induction false} NoSlot(responses: seq<Response>, id: nat)
    requires forall i :: 0 <= i < |responses| ==> responses[i].id != id
    ensures Slot(responses, id) == Missing
    decreases |responses|
  {
    if responses != [] { NoSlot(responses[..|responses| - 1], id); }
  }

  /** A server may answer a batch in any order (JSON-RPC 2.0, section 6): the
      slots are the same. */
  lemma RoutingIgnoresOrder(a: seq<Response>, b: seq<Response>, n: nat)
    requires multiset(a) == multiset(b) && DistinctIds(a) && DistinctIds(b)
    ensures Slots(n, a) == Slots(n, b)
  {
    forall id: nat | id < n ensures Slot(a, id) == Slot(b, id) {
      if i :| 0 <= i < |a| && a[i].id == id {
        assert a[i] in multiset(b);
        var j :| 0 <= j < |b| && b[j] == a[i];
        SlotOf(a, i);
        SlotOf(b, j);
      } else {
        forall j | 0 <= j < |b| ensures b[j].id != id {
          assert b[j] in multiset(a);
        }
        NoSlot(a, id);
        NoSlot(b, id);
      }
    }
  }

  // ---- Decoding one pool ----

  /** computeSpot; None when the pool is to be dropped. */
  function ComputeSpot(p: Pool, results: seq<Raw>): (r: Option<Agg.Spot>)
    ensures r.Some? ==> r.value.price > 0.0 && r.value.tvl >= 0.0
  {
    match p.kind
    case V2 =>
      if |results| < 1 then None
      else
        var reserves := DecodeReserves(results[0]);
        if reserves.None? then None
        else
          var (r0, r1) := reserves.value;
          var (reserveWflow, reserveStable) := if p.wflowIsToken0 then (r0, r1) else (r1, r0);
          if reserveWflow <= 0 || reserveStable <= 0 then None
          else Weigh(Spot.SpotFromReserves(reserveStable, reserveWflow, p.stableDec), reserveWflow)
    case V3 =>
      if |results| < 2 then None
      else
        var sqrtP := DecodeSlot0(results[0]);
        if sqrtP.None? || sqrtP.value <= 0 then None
        else
          var price := Spot.SpotFromSqrtPriceX96(sqrtP.value, p.wflowIsToken0, p.stableDec);
          if price <= 0.0 then None
          else
            var balance := DecodeUint256(results[1]);
            if balance.None? || balance.value < 0 then None else Weigh(price, balance.value)
    case Unknown => None
  }

  /** A price with the USD value of the WFLOW leg as its weight. */
  function Weigh(price: real, wflow: int): (r: Option<Agg.Spot>)
    requires wflow >= 0
    ensures r.Some? ==> r.value.price > 0.0 && r.value.tvl >= 0.0
  {
    if price <= 0.0 then None
    else
      AmountNotNegative(wflow, price);
      Some(Agg.Spot(price, Spot.Amount(wflow, Spot.WFLOW_DECIMALS) * price))
  }

  lemma AmountNotNegative(wflow: int, price: real)
    requires wflow >= 0 && price > 0.0
    ensures Spot.Amount(wflow, Spot.WFLOW_DECIMALS) * price >= 0.0
  {
    QuotientNotNegative(wflow as real, Spot.Pow10(Spot.WFLOW_DECIMALS));
    Spot.Scale(0.0, Spot.Amount(wflow, Spot.WFLOW_DECIMALS), price);
  }

  lemma QuotientNotNegative(a: real, b: real)
    requires a >= 0.0 && b > 0.0
    ensures a / b >= 0.0
  {
    assert a / b * b == a;
  }

  // ---- The whole read ----

  function SpotOf(r: PoolRead, results: seq<Raw>): Option<Agg.Spot>
    requires EndOf(r) <= |results|
  {
    ComputeSpot(r.pool, results[r.callStart..EndOf(r)])
  }

  predicate InRange(layout: seq<PoolRead>, n: nat) {
    forall i :: 0 <= i < |layout| ==> EndOf(layout[i]) <= n
  }

  function SpotsOf(layout: seq<PoolRead>, results: seq<Raw>): seq<Agg.Spot>
    requires InRange(layout, |results|)
  {
    if layout == [] then []
    else
      var front := SpotsOf(layout[..|layout| - 1], results);
      var s := SpotOf(layout[|layout| - 1], results);
      if s.Some? then front + [s.value] else front
  }

  /** What a pool yields when its calls are answered by the chain itself. */
  function DirectSpot(p: Pool, chain: Call -> Raw): Option<Agg.Spot> {
    ComputeSpot(p, seq(|CallsOf(p)|, i requires 0 <= i < |CallsOf(p)| => chain(CallsOf(p)[i])))
  }

  function DirectSpots(pools: seq<Pool>, chain: Call -> Raw): (r: seq<Agg.Spot>)
    ensures forall s :: s in r ==> s.price > 0.0 && s.tvl >= 0.0
  {
    if pools == [] then []
    else
      var front := DirectSpots(pools[..|pools| - 1], chain);
      var s := DirectSpot(pools[|pools| - 1], chain);
      if s.Some? then front + [s.value] else front
  }

  /** Every answer that is no error carries what the chain says to the call of its
      id. */
  predicate Honest(calls: seq<Call>, responses: seq<Response>, chain: Call -> Raw) {
    forall i :: 0 <= i < |responses| && !responses[i].isError && 0 <= responses[i].id < |calls| ==>
      responses[i].result == chain(calls[responses[i].id])
  }

  predicate Answered(responses: seq<Response>, id: nat) {
    exists i :: 0 <= i < |responses| && responses[i].id == id && !responses[i].isError
  }

  lemma {:induction false} HonestSlot(calls: seq<Call>, responses: seq<Response>, chain: Call -> Raw, id: nat)
    requires Honest(calls, responses, chain) && id < |calls|
    ensures Slot(responses, id) == if Answered(responses, id) then chain(calls[id]) else Missing
    decreases |responses|
  {
    if responses != [] {
      var last := |responses| - 1;
      HonestSlot(calls, responses[..last], chain, id);
      if Answered(responses[..last], id) {
        var i :| 0 <= i < last && responses[..last][i].id == id && !responses[..last][i].isError;
        assert responses[i].id == id;
      }
    }
  }

  lemma MissingGivesNoSpot(p: Pool, results: seq<Raw>, k: nat)
    requires |results| == |CallsOf(p)| && k < |results| && results[k] == Missing
    ensures ComputeSpot(p, results).None?
  {
    assert DecodeReserves(Missing).None? && DecodeUint256(Missing).None? && DecodeSlot0(Missing).None?;
    assert p.kind.V2? ==> k == 0;
    assert p.kind.V3? ==> k == 0 || k == 1;
  }

  ghost predicate FullyAnswered(r: PoolRead, responses: seq<Response>) {
    forall k: nat :: Owns(r, k) ==> Answered(responses, k)
  }

  /** Each pool gets the spot its own calls give, if all of them were answered,
      and is dropped otherwise; no answer to another pool's call matters. */
  lemma EachPoolDecodesItsOwnAnswers(layout: seq<PoolRead>, calls: seq<Call>, responses: seq<Response>,
      chain: Call -> Raw, i: nat)
    requires Tiles(layout, calls) && Honest(calls, responses, chain) && i < |layout|
    ensures SpotOf(layout[i], Slots(|calls|, responses))
         == if FullyAnswered(layout[i], responses) then DirectSpot(layout[i].pool, chain) else None
  {
    var r := layout[i];
    var own := Slots(|calls|, responses)[r.callStart..EndOf(r)];
    assert SliceIs(r, calls);
    forall k: nat | Owns(r, k)
      ensures own[k - r.callStart] == if Answered(responses, k) then chain(CallsOf(r.pool)[k - r.callStart])
        else Missing
    {
      HonestSlot(calls, responses, chain, k);
      assert calls[r.callStart..EndOf(r)][k - r.callStart] == calls[k];
    }
    if k: nat :| Owns(r, k) && !Answered(responses, k) {
      MissingGivesNoSpot(r.pool, own, k - r.callStart);
    } else {
      var direct := seq(|CallsOf(r.pool)|, j requires 0 <= j < |CallsOf(r.pool)| => chain(CallsOf(r.pool)[j]));
      forall j | 0 <= j < |own| ensures own[j] == direct[j] {
        assert Owns(r, r.callStart + j);
      }
      assert own == direct;
    }
  }

  /** The spots of the pools all of whose calls were answered. */
  ghost function LiveSpots(layout: seq<PoolRead>, responses: seq<Response>, chain: Call -> Raw): seq<Agg.Spot> {
    if layout == [] then []
    else
      var front, r := LiveSpots(layout[..|layout| - 1], responses, chain), layout[|layout| - 1];
      var s := DirectSpot(r.pool, chain);
      if s.Some? && FullyAnswered(r, responses) then front + [s.value] else front
  }

  lemma {:induction false} ReadsAreLive(layout: seq<PoolRead>, all: seq<PoolRead>, calls: seq<Call>,
      responses: seq<Response>, chain: Call -> Raw)
    requires Tiles(all, calls) && Honest(calls, responses, chain) && layout <= all
    ensures SpotsOf(layout, Slots(|calls|, responses)) == LiveSpots(layout, responses, chain)
    decreases |layout|
  {
    if layout != [] {
      var last := |layout| - 1;
      ReadsAreLive(layout[..last], all, calls, responses, chain);
      EachPoolDecodesItsOwnAnswers(all, calls, responses, chain, last);
    }
  }

  lemma {:induction false} AllAreLive(pools: seq<Pool>, responses: seq<Response>, chain: Call -> Raw)
    requires forall id: nat :: id < |Batch(pools)| ==> Answered(responses, id)
    ensures LiveSpots(Layout(pools), responses, chain) == DirectSpots(pools, chain)
    decreases |pools|
  {
    if pools != [] {
      var front, p := pools[..|pools| - 1], pools[|pools| - 1];
      AllAreLive(front, responses, chain);
      if !p.kind.Unknown? {
        var r := PoolRead(p, |Batch(front)|, |CallsOf(p)|);
        assert Layout(pools)[..|Layout(pools)| - 1] == Layout(front);
        forall k: nat | Owns(r, k) ensures Answered(responses, k) {
          assert k < |Batch(pools)|;
        }
      }
    }
  }

  /** Honest answers, in whatever order and however incomplete, yield the spots
      the chain gives to the pools whose own calls were all answered; complete
      ones yield those of every pool. */
  lemma HonestAnswersGiveTheChainsSpots(pools: seq<Pool>, responses: seq<Response>, chain: Call -> Raw)
    requires Honest(Batch(pools), responses, chain)
    ensures InRange(Layout(pools), |Batch(pools)|)
    ensures SpotsOf(Layout(pools), Slots(|Batch(pools)|, responses)) == LiveSpots(Layout(pools), responses, chain)
    ensures (forall id: nat :: id < |Batch(pools)| ==> Answered(responses, id)) ==>
      SpotsOf(Layout(pools), Slots(|Batch(pools)|, responses)) == DirectSpots(pools, chain)
  {
    LayoutTiles(pools);
    ReadsAreLive(Layout(pools), Layout(pools), Batch(pools), responses, chain);
    if forall id: nat :: id < |Batch(pools)| ==> Answered(responses, id) {
      AllAreLive(pools, responses, chain);
    }
  }

  // ---- Refresh and the cached price ----

  lemma LayoutInRange(pools: seq<Pool>)
    ensures InRange(Layout(pools), |Batch(pools)|)
  {
    LayoutTiles(pools);
    var layout, calls := Layout(pools), Batch(pools);
    assert forall i :: 0 <= i < |layout| ==> SliceIs(layout[i], calls) ==> EndOf(layout[i]) <= |calls|;
  }

  lemma SpotsNext(layout: seq<PoolRead>, results: seq<Raw>, i: nat)
    requires InRange(layout, |results|) && i < |layout|
    ensures SpotsOf(layout[..i + 1], results)
         == SpotsOf(layout[..i], results) + if SpotOf(layout[i], results).Some?
           then [SpotOf(layout[i], results).value] else []
  {
    assert layout[..i + 1][..i] == layout[..i];
  }

  /** The loop of refresh: each pool decodes its slice, or is skipped. */
  method DecodeAll(layout: seq<PoolRead>, results: seq<Raw>) returns (spots: seq<Agg.Spot>)
    requires InRange(layout, |results|)
    ensures spots == SpotsOf(layout, results)
  {
    spots := [];
    for i := 0 to |layout|
      invariant spots == SpotsOf(layout[..i], results)
    {
      SpotsNext(layout, results, i);
      var spot := SpotOf(layout[i], results);
      if spot.None? { continue; }
      spots := spots + [spot.value];
    }
    assert layout[..|layout|] == layout;
  }

  /** A quote, with the time it was read. */
  datatype Quote = Quote(price: real, publishTime: int)

  class PoolPriceOracle {
    const pools: seq<Pool>
    const config: Agg.Config
    const ttl: int
    var cached: Option<Quote>
    var cachedAt: int

    constructor (pools: seq<Pool>, config: Agg.Config, ttl: int)
      ensures this.pools == pools && this.config == config && this.ttl == ttl && cached.None?
    {
      this.pools, this.config, this.ttl := pools, config, ttl;
      cached, cachedAt := None, 0;
    }

    /** One batched read, aggregated. */
    method Refresh(replies: seq<Option<seq<Response>>>) returns (outcome: Option<Agg.Outcome>)
      ensures InRange(Layout(pools), |Batch(pools)|)
      ensures var results := Routed(|Batch(pools)|, replies);
        outcome == if results.None? then None else Some(Agg.Aggregate(SpotsOf(Layout(pools), results.value), config))
    {
      var calls, layout := BuildCalls(pools);
      LayoutInRange(pools);
      var results := BatchCall(calls, replies);
      if results.None? { return None; }
      var spots := DecodeAll(layout, results.value);
      var final := Agg.ComputeAggregate(spots, config);
      return Some(final);
    }

    predicate Fresh(now: int)
      reads this
    {
      cached.Some? && now - cachedAt < ttl
    }

    /** Latest: the cache, checked at `now` and again at `recheck`, else one
        refresh published and stored at the later times. A failed refresh leaves
        the cache as it was and is reported, never covered by an old price. */
    method Latest(now: int, recheck: int, published: int, stored: int, replies: seq<Option<seq<Response>>>)
      returns (r: Option<Quote>)
      modifies this`cached, this`cachedAt
      ensures old(Fresh(now) || Fresh(recheck)) ==> r == old(cached)
      ensures !old(Fresh(now) || Fresh(recheck)) && r.Some? ==>
        && r.value.publishTime == published && cached == r && cachedAt == stored
        && Routed(|Batch(pools)|, replies).Some? && InRange(Layout(pools), |Batch(pools)|)
        && Agg.Price(r.value.price)
            == Agg.Aggregate(SpotsOf(Layout(pools), Routed(|Batch(pools)|, replies).value), config)
      ensures old(Fresh(now) || Fresh(recheck)) || r.None? ==> cached == old(cached) && cachedAt == old(cachedAt)
    {
      if Fresh(now) { return cached; }
      if Fresh(recheck) { return cached; }
      var outcome := Refresh(replies);
      if outcome.None? || !outcome.value.Price? { return None; }
      cached, cachedAt := Some(Quote(outcome.value.value, published)), stored;
      r := cached;
    }
  }

  lemma {:induction false} DecodedSpotsArePriced(layout: seq<PoolRead>, results: seq<Raw>)
    requires InRange(layout, |results|)
    ensures forall s :: s in SpotsOf(layout, results) ==> s.price > 0.0 && s.tvl >= 0.0
    decreases |layout|
  {
    if layout != [] { DecodedSpotsArePriced(layout[..|layout| - 1], results); }
  }

  /** Whatever the endpoint answered, for whichever pools: if a strict majority of
      the pools that could be read quote within [lo, hi], that bounds the price
      refresh makes of them. */
  lemma MajorityOfPoolsBoundsThePrice(pools: seq<Pool>, results: seq<Raw>, c: Agg.Config, lo: real, hi: real)
    requires InRange(Layout(pools), |results|) && lo > 0.0
    requires var spots := SpotsOf(Layout(pools), results); 2 * Agg.Count(Agg.Prices(spots), lo, hi) > |spots|
    ensures var outcome := Agg.Aggregate(SpotsOf(Layout(pools), results), c);
      outcome.Price? ==>
        Agg.Around(outcome.value, lo, hi, c.maxDeviation) && c.sanityMin <= outcome.value <= c.sanityMax
  {
    DecodedSpotsArePriced(Layout(pools), results);
    Agg.MajorityBoundsThePrice(SpotsOf(Layout(pools), results), c, lo, hi);
  }
}
