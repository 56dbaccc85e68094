/** Concurrent callers of one lookup behind a cache: a caller that misses joins
    the flight under way, or starts one that looks again before it fetches. */
module SharedFlight {
  import opened Common

  datatype Fetch<V> = Fails | NotFound | Yields(value: V)

  /** A cache as one lookup sees it: what it finds, and what looking and storing
      leave behind. */
  datatype Cache<!C, !V> = Cache(find: (C, int) -> Option<V>, look: (C, int) -> C, store: (C, V, int) -> C)

  datatype Pc<V> = Missed | Waiting(flight: nat) | Done(answer: Fetch<V>)

  datatype Phase<V> = AtRecheck | AtFetch | AtStore(value: V) | AtEnd(answer: Fetch<V>)

  datatype Flight<V> = Flight(number: nat, phase: Phase<V>)

  /** `flights` and `fetches` count those started, `successes` those that
      returned a value; `stored` is the last value stored, and when. */
  datatype System<C, V> = System(
    cache: C, callers: map<nat, Pc<V>>, flight: Option<Flight<V>>,
    flights: nat, fetches: nat, successes: nat, stored: Option<(V, int)>)

  /** Other is whatever else happens to the cache. */
  datatype Action<C, V> =
    | Look(caller: nat, now: int)
    | Join(caller: nat)
    | Recheck(now: int)
    | Return(answer: Fetch<V>)
    | Store(now: int)
    | End
    | Other(cache: C)

  function Start<C, V>(cache: C): System<C, V> {
    System(cache, map[], None, 0, 0, 0, None)
  }

  function Moved<C, V>(s: System<C, V>, phase: Phase<V>): System<C, V>
    requires s.flight.Some?
  {
    s.(flight := Some(s.flight.value.(phase := phase)))
  }

  function ApplyLook<C, V>(m: Cache<C, V>, s: System<C, V>, caller: nat, now: int): System<C, V> {
    if caller in s.callers then s
    else
      var hit := m.find(s.cache, now);
      var pc := if hit.Some? then Done(Yields(hit.value)) else Missed;
      s.(cache := m.look(s.cache, now), callers := s.callers[caller := pc])
  }

  function ApplyJoin<C, V>(s: System<C, V>, caller: nat): System<C, V> {
    if caller !in s.callers || !s.callers[caller].Missed? then s
    else if s.flight.Some? then s.(callers := s.callers[caller := Waiting(s.flight.value.number)])
    else
      s.(callers := s.callers[caller := Waiting(s.flights)],
         flight := Some(Flight(s.flights, AtRecheck)),
         flights := s.flights + 1)
  }

  function ApplyRecheck<C, V>(m: Cache<C, V>, s: System<C, V>, now: int): System<C, V> {
    if s.flight.None? || !s.flight.value.phase.AtRecheck? then s
    else
      var hit := m.find(s.cache, now);
      var t := s.(cache := m.look(s.cache, now));
      if hit.Some? then Moved(t, AtEnd(Yields(hit.value))) else Moved(t, AtFetch).(fetches := s.fetches + 1)
  }

  function ApplyReturn<C, V>(s: System<C, V>, answer: Fetch<V>): System<C, V> {
    if s.flight.None? || !s.flight.value.phase.AtFetch? then s
    else if answer.Yields? then Moved(s, AtStore(answer.value)).(successes := s.successes + 1)
    else Moved(s, AtEnd(answer))
  }

  function ApplyStore<C, V>(m: Cache<C, V>, s: System<C, V>, now: int): System<C, V> {
    if s.flight.None? || !s.flight.value.phase.AtStore? then s
    else
      var v := s.flight.value.phase.value;
      Moved(s, AtEnd(Yields(v))).(cache := m.store(s.cache, v, now), stored := Some((v, now)))
  }

  /** Every caller of the flight gets its answer. */
  function ApplyEnd<C, V>(s: System<C, V>): System<C, V> {
    if s.flight.None? || !s.flight.value.phase.AtEnd? then s
    else
      var f := s.flight.value;
      s.(flight := None,
         callers := map k | k in s.callers :: if s.callers[k] == Waiting(f.number) then Done(f.phase.answer)
           else s.callers[k])
  }

  function Apply<C, V>(m: Cache<C, V>, s: System<C, V>, a: Action<C, V>): System<C, V> {
    match a
    case Look(caller, now) => ApplyLook(m, s, caller, now)
    case Join(caller) => ApplyJoin(s, caller)
    case Recheck(now) => ApplyRecheck(m, s, now)
    case Return(answer) => ApplyReturn(s, answer)
    case Store(now) => ApplyStore(m, s, now)
    case End => ApplyEnd(s)
    case Other(cache) => s.(cache := cache)
  }

  function Run<C, V>(m: Cache<C, V>, s: System<C, V>, actions: seq<Action<C, V>>): System<C, V>
    decreases |actions|
  {
    if actions == [] then s else Run(m, Apply(m, s, actions[0]), actions[1..])
  }

  // ---- One fetch at a time, and nobody left waiting ----

  ghost predicate Orderly<C, V>(s: System<C, V>) {
    && (forall k :: k in s.callers && s.callers[k].Waiting? ==>
        s.flight.Some? && s.callers[k].flight == s.flight.value.number)
    && s.successes <= s.fetches
    && (s.flight.Some? && s.flight.value.phase.AtFetch? ==> s.successes < s.fetches)
  }

  lemma {:induction false} RunsAreOrderly<C, V>(m: Cache<C, V>, s: System<C, V>, actions: seq<Action<C, V>>)
    requires Orderly(s)
    ensures Orderly(Run(m, s, actions))
    decreases |actions|
  {
    if actions != [] { RunsAreOrderly(m, Apply(m, s, actions[0]), actions[1..]); }
  }

  /** The end of a flight answers every caller that waits, all of them alike. */
  lemma FlightAnswersAllItsCallers<C, V>(m: Cache<C, V>, cache: C, actions: seq<Action<C, V>>, k: nat)
    requires var s := Run(m, Start(cache), actions);
      k in s.callers && s.callers[k].Waiting? && s.flight.Some? && s.flight.value.phase.AtEnd?
    ensures var s := Run(m, Start(cache), actions);
      var t := Apply(m, s, End);
      k in t.callers && t.callers[k] == Done(s.flight.value.phase.answer) && t.flight.None?
      && forall j :: j in t.callers ==> !t.callers[j].Waiting?
  {
    RunsAreOrderly(m, Start(cache), actions);
  }

  lemma RunUnfold<C, V>(m: Cache<C, V>, s: System<C, V>, a: Action<C, V>, rest: seq<Action<C, V>>)
    ensures Run(m, s, [a] + rest) == Run(m, Apply(m, s, a), rest)
  {
    assert ([a] + rest)[1..] == rest;
  }

  /** The flight of a caller that is alone, from its second look on. */
  function FlightSteps<C, V>(recheck: int, answer: Fetch<V>, stored: int): seq<Action<C, V>> {
    [Action<C, V>.Recheck(recheck)] + ([Action<C, V>.Return(answer)] + ([Action<C, V>.Store(stored)]
      + ([Action<C, V>.End] + [])))
  }

  lemma FlightRuns<C, V>(m: Cache<C, V>, s: System<C, V>, recheck: int, answer: Fetch<V>, stored: int)
    ensures Run(m, s, FlightSteps(recheck, answer, stored)) == Apply(m, Apply(m, Apply(m,
      Apply(m, s, Action<C, V>.Recheck(recheck)), Action<C, V>.Return(answer)), Action<C, V>.Store(stored)),
      Action<C, V>.End)
  {
    var none: seq<Action<C, V>> := [];
    var s1 := Apply(m, s, Action<C, V>.Recheck(recheck));
    var s2 := Apply(m, s1, Action<C, V>.Return(answer));
    var s3 := Apply(m, s2, Action<C, V>.Store(stored));
    RunUnfold(m, s, Action<C, V>.Recheck(recheck), [Action<C, V>.Return(answer)] + ([Action<C, V>.Store(stored)]
      + ([Action<C, V>.End] + none)));
    RunUnfold(m, s1, Action<C, V>.Return(answer), [Action<C, V>.Store(stored)] + ([Action<C, V>.End] + none));
    RunUnfold(m, s2, Action<C, V>.Store(stored), [Action<C, V>.End] + none);
    RunUnfold(m, s3, Action<C, V>.End, none);
  }

  /** A caller gets what it finds, without a fetch; one that misses joins or starts a
      flight, and a flight left to itself gives every caller that waits for it what
      its second look finds or else what the fetch answers, stored if it is a value. */
  lemma CallersAreServed<C, V>(m: Cache<C, V>, cache: C, actions: seq<Action<C, V>>, k: nat, now: int, recheck: int,
      answer: Fetch<V>, stored: int)
    requires var s := Run(m, Start(cache), actions); k !in s.callers && s.flight.None?
    ensures var s := Run(m, Start(cache), actions);
      var looked := Apply(m, s, Action<C, V>.Look(k, now));
      var joined := Apply(m, looked, Action<C, V>.Join(k));
      var hit, second := m.find(s.cache, now), m.find(m.look(s.cache, now), recheck);
      var t := Run(m, joined, FlightSteps(recheck, answer, stored));
      && k in t.callers && t.flight.None?
      && t.callers[k] == Done(if hit.Some? then Yields(hit.value) else if second.Some? then Yields(second.value)
                              else answer)
      && t.fetches == s.fetches + (if hit.None? && second.None? then 1 else 0)
      && t.cache == (if hit.Some? then m.look(s.cache, now)
                     else var after := m.look(m.look(s.cache, now), recheck);
                       if second.None? && answer.Yields? then m.store(after, answer.value, stored) else after)
      && (forall j :: j in s.callers ==> j in t.callers && (s.callers[j].Done? ==> t.callers[j] == s.callers[j]))
  {
    RunsAreOrderly(m, Start(cache), actions);
    var s := Run(m, Start(cache), actions);
    var joined := Apply(m, Apply(m, s, Action<C, V>.Look(k, now)), Action<C, V>.Join(k));
    FlightRuns(m, joined, recheck, answer, stored);
  }

  // ---- One fetch altogether ----

  function ValueOf<V>(stored: Option<(V, int)>): Option<V> {
    if stored.None? then None else Some(stored.value.0)
  }

  /** Every look finds the value last stored: none before the first, that one
      after. */
  ghost predicate Kept<C, V>(m: Cache<C, V>, s: System<C, V>, a: Action<C, V>) {
    match a
    case Look(_, now) => m.find(s.cache, now) == ValueOf(s.stored)
    case Recheck(now) => m.find(s.cache, now) == ValueOf(s.stored)
    case _ => true
  }

  ghost predicate KeptRun<C, V>(m: Cache<C, V>, s: System<C, V>, actions: seq<Action<C, V>>)
    decreases |actions|
  {
    actions == [] || (Kept(m, s, actions[0]) && KeptRun(m, Apply(m, s, actions[0]), actions[1..]))
  }

  ghost predicate Inv<C, V>(s: System<C, V>) {
    && Orderly(s)
    && s.successes == (if s.stored.Some? || (s.flight.Some? && s.flight.value.phase.AtStore?) then 1 else 0)
    && (s.flight.Some? ==>
          var phase := s.flight.value.phase;
          && (s.stored.Some? ==> !phase.AtFetch? && !phase.AtStore?)
          && (phase.AtEnd? && phase.answer.Yields? ==> ValueOf(s.stored) == Some(phase.answer.value)))
    && (forall k :: k in s.callers && s.callers[k].Done? && s.callers[k].answer.Yields? ==>
          ValueOf(s.stored) == Some(s.callers[k].answer.value))
  }

  lemma StepKeepsInv<C, V>(m: Cache<C, V>, s: System<C, V>, a: Action<C, V>)
    requires Inv(s) && Kept(m, s, a)
    ensures Inv(Apply(m, s, a))
  {
  }

  lemma {:induction false} RunKeepsInv<C, V>(m: Cache<C, V>, s: System<C, V>, actions: seq<Action<C, V>>)
    requires Inv(s) && KeptRun(m, s, actions)
    ensures Inv(Run(m, s, actions))
    decreases |actions|
  {
    if actions != [] {
      StepKeepsInv(m, s, actions[0]);
      RunKeepsInv(m, Apply(m, s, actions[0]), actions[1..]);
    }
  }

  /** However many callers there are and however they interleave: while the cache
      keeps what it was given, at most one fetch succeeds, every caller with a value
      has that one, and after it no further fetch starts. */
  lemma FetchedOnce<C, V>(m: Cache<C, V>, cache: C, actions: seq<Action<C, V>>)
    requires KeptRun(m, Start(cache), actions)
    ensures var s := Run(m, Start(cache), actions);
      && s.successes <= 1
      && (forall k :: k in s.callers && s.callers[k].Done? && s.callers[k].answer.Yields? ==>
            s.successes == 1 && ValueOf(s.stored) == Some(s.callers[k].answer.value))
      && (forall a :: Kept(m, s, a) && s.stored.Some? ==> Apply(m, s, a).fetches == s.fetches)
  {
    RunKeepsInv(m, Start(cache), actions);
  }

  /** And it is exactly a look that no longer finds the value that starts one
      more. */
  lemma RefetchedIff<C, V>(m: Cache<C, V>, cache: C, actions: seq<Action<C, V>>, a: Action<C, V>)
    requires KeptRun(m, Start(cache), actions) && Run(m, Start(cache), actions).stored.Some?
    ensures var s := Run(m, Start(cache), actions);
      Apply(m, s, a).fetches > s.fetches
      <==> a.Recheck? && s.flight.Some? && s.flight.value.phase.AtRecheck? && m.find(s.cache, a.now).None?
  {
    RunKeepsInv(m, Start(cache), actions);
  }
}
