/** The two lookups that share flights: an escrow behind its cache, and the
    oracle's price behind its own. */
module Flights {
  import opened Common
  import opened SharedFlight
  import E = EscrowCache
  import B = OracleBatch

  // ---- One escrow ----

  function EscrowCacheFor(id: nat, cap: int, ttl: int): Cache<E.State, E.Summary> {
    Cache(
      (s: E.State, now: int) => E.Found(s, id, now),
      (s: E.State, now: int) => E.Got(s, id, now),
      (s: E.State, v: E.Summary, now: int) => E.Stored(s, id, v, now, cap, ttl))
  }

  /** The escrow is absent, or past its deadline at `from` already. */
  predicate Stale(id: nat, from: int, cache: E.State) {
    id in cache.items ==> E.Dead(cache.items[id], from)
  }

  /** The burst begins at `from`. Other callers only get and set other escrows and do
      not push this one out; nobody looks after the deadline of a value that has one. */
  ghost predicate Undisturbed(
    id: nat, cap: int, ttl: int, from: int, s: System<E.State, E.Summary>, a: Action<E.State, E.Summary>)
  {
    match a
    case Look(_, now) => from <= now && InTime(ttl, s.stored, now)
    case Recheck(now) => from <= now && InTime(ttl, s.stored, now)
    case Other(cache) =>
      && (exists op: E.Op :: op.id != id && cache == E.Next(s.cache, op, cap, ttl))
      && (s.stored.Some? ==> id in cache.items)
    case _ => true
  }

  predicate InTime(ttl: int, stored: Option<(E.Summary, int)>, now: int) {
    stored.Some? ==> stored.value.0.status == E.RELEASED || now <= stored.value.1 + ttl
  }

  ghost predicate UndisturbedRun(
    id: nat, cap: int, ttl: int, from: int, s: System<E.State, E.Summary>, actions: seq<Action<E.State, E.Summary>>)
    decreases |actions|
  {
    actions == []
    || (Undisturbed(id, cap, ttl, from, s, actions[0])
        && UndisturbedRun(id, cap, ttl, from, Apply(EscrowCacheFor(id, cap, ttl), s, actions[0]), actions[1..]))
  }

  /** Before the first store the cache has nothing left to give, after it the escrow
      exactly as it was last stored. */
  ghost predicate Holds(id: nat, cap: int, ttl: int, from: int, s: System<E.State, E.Summary>) {
    && E.Consistent(s.cache, cap)
    && (if s.stored.None? then Stale(id, from, s.cache)
        else id in s.cache.items && s.cache.items[id] == E.EntryFor(s.stored.value.0, s.stored.value.1, ttl))
  }

  lemma StepHolds(
    id: nat, cap: int, ttl: int, from: int, s: System<E.State, E.Summary>, a: Action<E.State, E.Summary>)
    requires cap > 0 && Holds(id, cap, ttl, from, s) && Undisturbed(id, cap, ttl, from, s, a)
    ensures Kept(EscrowCacheFor(id, cap, ttl), s, a)
    ensures Holds(id, cap, ttl, from, Apply(EscrowCacheFor(id, cap, ttl), s, a))
  {
    match a
    case Look(_, now) => E.GotKeeps(s.cache, id, now, cap);
    case Recheck(now) => E.GotKeeps(s.cache, id, now, cap);
    case Store(now) =>
      if s.flight.Some? && s.flight.value.phase.AtStore? {
        E.StoredKeeps(s.cache, id, s.flight.value.phase.value, now, cap, ttl);
        E.JustStored(s.cache, id, s.flight.value.phase.value, now, cap, ttl);
      }
    case Other(cache) =>
      var op: E.Op :| op.id != id && cache == E.Next(s.cache, op, cap, ttl);
      E.NextKeeps(s.cache, op, cap, ttl);
      E.OthersKeepTheEntry(s.cache, op, cap, ttl, id);
    case _ =>
  }

  lemma {:induction false} UndisturbedIsKept(
    id: nat, cap: int, ttl: int, from: int, s: System<E.State, E.Summary>, actions: seq<Action<E.State, E.Summary>>)
    requires cap > 0 && Holds(id, cap, ttl, from, s) && UndisturbedRun(id, cap, ttl, from, s, actions)
    ensures KeptRun(EscrowCacheFor(id, cap, ttl), s, actions)
    decreases |actions|
  {
    if actions != [] {
      StepHolds(id, cap, ttl, from, s, actions[0]);
      UndisturbedIsKept(id, cap, ttl, from, Apply(EscrowCacheFor(id, cap, ttl), s, actions[0]), actions[1..]);
    }
  }

  /** Any number of concurrent callers of getOrFetch for an escrow that the cache
      lacks or holds past its deadline cause one successful fetch, and all that get a
      summary get that one, as long as it is neither pushed out nor looked for after
      its own deadline. */
  lemma EscrowIsFetchedOnce(
    id: nat, cap: int, ttl: int, from: int, cache: E.State, actions: seq<Action<E.State, E.Summary>>)
    requires cap > 0 && E.Consistent(cache, cap) && Stale(id, from, cache)
    requires UndisturbedRun(id, cap, ttl, from, Start(cache), actions)
    ensures var s := Run(EscrowCacheFor(id, cap, ttl), Start(cache), actions);
      && s.successes <= 1
      && (forall k :: k in s.callers && s.callers[k].Done? && s.callers[k].answer.Yields? ==>
            s.successes == 1 && ValueOf(s.stored) == Some(s.callers[k].answer.value))
  {
    UndisturbedIsKept(id, cap, ttl, from, Start(cache), actions);
    FetchedOnce(EscrowCacheFor(id, cap, ttl), cache, actions);
  }

  // ---- The price ----

  datatype PriceCache = PriceCache(cached: Option<B.Quote>, cachedAt: int)

  function PriceCacheFor(ttl: int): Cache<PriceCache, B.Quote> {
    Cache(
      (c: PriceCache, now: int) => if now - c.cachedAt < ttl then c.cached else None,
      (c: PriceCache, now: int) => c,
      (c: PriceCache, v: B.Quote, now: int) => PriceCache(Some(v), now))
  }

  /** There is no price, or it has reached its time to live at `from` already. */
  predicate Outlived(ttl: int, from: int, cache: PriceCache) {
    cache.cached.None? || from - cache.cachedAt >= ttl
  }

  /** The burst begins at `from`; nobody looks once the price stored in it has
      reached its time to live. */
  predicate WithinTtl(ttl: int, from: int, s: System<PriceCache, B.Quote>, a: Action<PriceCache, B.Quote>) {
    match a
    case Look(_, now) => from <= now && (s.stored.Some? ==> now - s.stored.value.1 < ttl)
    case Recheck(now) => from <= now && (s.stored.Some? ==> now - s.stored.value.1 < ttl)
    case Other(_) => false
    case _ => true
  }

  ghost predicate WithinTtlRun(
    ttl: int, from: int, s: System<PriceCache, B.Quote>, actions: seq<Action<PriceCache, B.Quote>>)
    decreases |actions|
  {
    actions == [] || (WithinTtl(ttl, from, s, actions[0])
      && WithinTtlRun(ttl, from, Apply(PriceCacheFor(ttl), s, actions[0]), actions[1..]))
  }

  lemma {:induction false} WithinTtlIsKept(
    ttl: int, from: int, s: System<PriceCache, B.Quote>, actions: seq<Action<PriceCache, B.Quote>>)
    requires WithinTtlRun(ttl, from, s, actions)
    requires if s.stored.None? then Outlived(ttl, from, s.cache)
      else s.cache == PriceCache(Some(s.stored.value.0), s.stored.value.1)
    ensures KeptRun(PriceCacheFor(ttl), s, actions)
    decreases |actions|
  {
    if actions != [] { WithinTtlIsKept(ttl, from, Apply(PriceCacheFor(ttl), s, actions[0]), actions[1..]); }
  }

  /** A burst of callers that finds no price, or one just expired, triggers one
      successful refresh, and all that get a price within its time to live get that one. */
  lemma BurstRefreshesOnce(ttl: int, from: int, cache: PriceCache, actions: seq<Action<PriceCache, B.Quote>>)
    requires Outlived(ttl, from, cache) && WithinTtlRun(ttl, from, Start(cache), actions)
    ensures var s := Run(PriceCacheFor(ttl), Start(cache), actions);
      && s.successes <= 1
      && (forall k :: k in s.callers && s.callers[k].Done? && s.callers[k].answer.Yields? ==>
            s.successes == 1 && ValueOf(s.stored) == Some(s.callers[k].answer.value))
  {
    WithinTtlIsKept(ttl, from, Start(cache), actions);
    FetchedOnce(PriceCacheFor(ttl), cache, actions);
  }
}
