/** The idempotency middleware over the in-memory store: one handler run per key
    at a time, recorded and replayed. */
module LocalIdempotency {
  import opened Common

  /** A reservation, or a completed response; live until `expiry`. */
  datatype Record = Record(completed: bool, status: int, contentType: string, body: string, expiry: int)

  function Reservation(now: int, ttl: int): Record {
    Record(false, 0, "", "", now + ttl)
  }

  function Completed(r: Response, now: int, ttl: int): Record {
    Record(true, r.status, r.contentType, r.body, now + ttl)
  }

  datatype Response = Response(status: int, contentType: string, body: string)

  function Live(keys: map<string, Record>, key: string, now: int): Option<Record> {
    if key in keys && keys[key].expiry > now then Some(keys[key]) else None
  }

  // ---- The store ----

  class Store {
    var keys: map<string, Record>

    constructor ()
      ensures keys == map[]
    {
      keys := map[];
    }

    /** An expired record is deleted on the way. */
    method Get(key: string, now: int) returns (r: Option<Record>)
      modifies this
      ensures r == Live(old(keys), key, now)
      ensures keys == if r.Some? then old(keys) else old(keys) - {key}
    {
      if key !in keys { return None; }
      var v := keys[key];
      if v.expiry > now { return Some(v); }
      keys := keys - {key};
      return None;
    }

    method TryReserve(key: string, now: int, ttl: int) returns (reserved: bool, existing: Option<Record>)
      modifies this
      ensures existing == Live(old(keys), key, now) && reserved == existing.None?
      ensures keys == if reserved then old(keys)[key := Reservation(now, ttl)] else old(keys)
    {
      existing := Get(key, now);
      if existing.Some? { return false, existing; }
      keys := keys[key := Reservation(now, ttl)];
      return true, None;
    }

    method SetResponse(key: string, r: Response, now: int, ttl: int)
      modifies this
      ensures keys == old(keys)[key := Completed(r, now, ttl)]
    {
      keys := keys[key := Completed(r, now, ttl)];
    }

    method Release(key: string)
      modifies this
      ensures keys == old(keys) - {key}
    {
      keys := keys - {key};
    }
  }

  // ---- The recorder ----

  /** What a handler does to its response writer. */
  datatype Write = WriteHeader(status: int) | WriteBody(bytes: string)

  predicate Informational(status: int) { 100 <= status <= 199 && status != 101 }

  /** A status under which the server refuses body bytes (RFC 9110, section 6.4.1). */
  predicate Bodyless(status: int) { status == 101 || status == 204 || status == 304 }

  datatype Wire = Wire(status: int, body: string)

  /** The server's own writer: informational headers are sent and forgotten, the
      first other header or the first body write fixes the status, which may refuse
      the bytes. */
  function Sent(ws: seq<Write>): Wire {
    if ws == [] then Wire(0, "")
    else
      var w, last := Sent(ws[..|ws| - 1]), ws[|ws| - 1];
      match last
      case WriteHeader(status) => if w.status != 0 || Informational(status) then w else w.(status := status)
      case WriteBody(bytes) =>
        var status := FinalStatus(w.status);
        Wire(status, if Bodyless(status) then w.body else w.body + bytes)
  }

  function FinalStatus(status: int): int {
    if status != 0 then status else 200
  }

  /** What the recorder passes on: everything but the headers after the first
      write. */
  function Forwarded(ws: seq<Write>): seq<Write> {
    if ws == [] then []
    else
      var front, w := Forwarded(ws[..|ws| - 1]), ws[|ws| - 1];
      if w.WriteHeader? && |ws| > 1 then front else front + [w]
  }

  function Bodies(ws: seq<Write>): string {
    if ws == [] then ""
    else Bodies(ws[..|ws| - 1]) + if ws[|ws| - 1].WriteBody? then ws[|ws| - 1].bytes else ""
  }

  function StatusOf(w: Write): int {
    if w.WriteHeader? then w.status else 200
  }

  /** What the recorder keeps for a handler that did all this. */
  function Recorded(ws: seq<Write>): Wire {
    Wire(if ws == [] then 0 else StatusOf(ws[0]), Bodies(ws))
  }

  class Recorder {
    var statusCode: int
    var body: string
    /** What the handler did, and what reached the server's writer. */
    ghost var done: seq<Write>
    ghost var forwarded: seq<Write>

    ghost predicate Valid()
      reads this
    {
      Wire(statusCode, body) == Recorded(done) && forwarded == Forwarded(done) && (statusCode == 0 <==> done == [])
    }

    constructor ()
      ensures Valid() && done == []
    {
      statusCode, body, done, forwarded := 0, "", [], [];
    }

    method WriteHeader(status: int)
      requires Valid() && 100 <= status <= 999
      modifies this
      ensures Valid() && done == old(done) + [Write.WriteHeader(status)]
    {
      done := done + [Write.WriteHeader(status)];
      assert done[..|done| - 1] == old(done);
      if statusCode != 0 { return; }
      statusCode := status;
      forwarded := forwarded + [Write.WriteHeader(status)];
    }

    method WriteBody(bytes: string)
      requires Valid()
      modifies this
      ensures Valid() && done == old(done) + [Write.WriteBody(bytes)]
    {
      if statusCode == 0 { statusCode := 200; }
      body := body + bytes;
      done := done + [Write.WriteBody(bytes)];
      assert done[..|done| - 1] == old(done);
      forwarded := forwarded + [Write.WriteBody(bytes)];
    }

    method FinalStatusCode() returns (status: int)
      requires Valid()
      ensures status == FinalStatus(Recorded(done).status) && body == Recorded(done).body
    {
      status := FinalStatus(statusCode);
    }
  }

  /** The status on the wire when this one was written first. */
  function SentStatus(first: int, bodied: bool): int {
    if !Informational(first) && first != 0 then first else if bodied then 200 else 0
  }

  ghost predicate Bodied(ws: seq<Write>) {
    exists i :: 0 <= i < |ws| && ws[i].WriteBody?
  }

  /** The body on the wire when everything is written to it. */
  function SentBody(ws: seq<Write>): string {
    if ws != [] && Bodyless(StatusOf(ws[0])) then "" else Bodies(ws)
  }

  lemma {:induction false} SentOfForwarded(ws: seq<Write>)
    requires forall i :: 0 <= i < |ws| && ws[i].WriteHeader? ==> 100 <= ws[i].status <= 999
    ensures Sent(Forwarded(ws)).body == SentBody(ws)
    ensures ws != [] ==> Sent(Forwarded(ws)).status == SentStatus(StatusOf(ws[0]), Bodied(ws))
    decreases |ws|
  {
    if ws != [] {
      var front, w := ws[..|ws| - 1], ws[|ws| - 1];
      SentOfForwarded(front);
      var f := Forwarded(ws);
      if !(w.WriteHeader? && |ws| > 1) { assert f[..|f| - 1] == Forwarded(front); }
      if Bodied(front) {
        var i :| 0 <= i < |front| && front[i].WriteBody?;
        assert ws[i].WriteBody?;
      }
      if w.WriteBody? { assert ws[|ws| - 1].WriteBody?; }
    }
  }

  /** The recorded body is the one the client got exactly unless the first header was
      one that refuses a body and there were bytes; so is the status exactly unless
      the handler opened with an informational header: then every later header is
      swallowed and the client sees 200. */
  lemma RecordMatchesTheWireIff(ws: seq<Write>)
    requires forall i :: 0 <= i < |ws| && ws[i].WriteHeader? ==> 100 <= ws[i].status <= 999
    ensures Recorded(ws).body == Sent(Forwarded(ws)).body
      <==> !(ws != [] && Bodyless(StatusOf(ws[0])) && Bodies(ws) != "")
    ensures FinalStatus(Recorded(ws).status) == FinalStatus(Sent(Forwarded(ws)).status)
      <==> !(ws != [] && ws[0].WriteHeader? && Informational(ws[0].status))
  {
    SentOfForwarded(ws);
  }

  /** What replaying a response does to the server's writer. */
  function Replayed(status: int, body: string): seq<Write> {
    [Write.WriteHeader(status), Write.WriteBody(body)]
  }

  lemma ReplayedWire(status: int, body: string)
    requires 100 <= status <= 999
    ensures Sent(Replayed(status, body)) ==
      if Informational(status) then Wire(200, body) else Wire(status, if Bodyless(status) then "" else body)
  {
    var header := [Write.WriteHeader(status)];
    assert header[..0] == [];
    assert Sent(header) == Wire(if Informational(status) then 0 else status, "");
    var ws := Replayed(status, body);
    assert ws[..|ws| - 1] == header;
  }

  lemma FirstWire(ws: seq<Write>)
    requires forall i :: 0 <= i < |ws| && ws[i].WriteHeader? ==> 100 <= ws[i].status <= 999
    ensures var status := if ws == [] then 200 else StatusOf(ws[0]);
      var first := Sent(Forwarded(ws));
      && FinalStatus(first.status) == (if Informational(status) then 200 else status)
      && first.body == (if Bodyless(status) then "" else Bodies(ws))
  {
    SentOfForwarded(ws);
  }

  /** The replay repeats the wire all the same, whatever the handler did: the client
      of a repeated request gets the status and body the first one got. */
  lemma ReplayRepeatsTheWire(ws: seq<Write>)
    requires forall i :: 0 <= i < |ws| && ws[i].WriteHeader? ==> 100 <= ws[i].status <= 999
    ensures var again := Sent(Replayed(FinalStatus(Recorded(ws).status), Recorded(ws).body));
      var first := Sent(Forwarded(ws));
      again.status == FinalStatus(first.status) && again.body == first.body
  {
    var status := if ws == [] then 200 else StatusOf(ws[0]);
    assert FinalStatus(Recorded(ws).status) == status && Recorded(ws).body == Bodies(ws);
    ReplayedWire(status, Bodies(ws));
    FirstWire(ws);
  }

  /** Early hints, then 201: 103 is recorded, the client of the first request saw
      200. */
  lemma EarlyHintsAreRecorded()
    ensures var ws := [Write.WriteHeader(103), Write.WriteHeader(201)];
      Recorded(ws).status == 103 && FinalStatus(Sent(Forwarded(ws)).status) == 200
  {
    SentOfForwarded([Write.WriteHeader(103), Write.WriteHeader(201)]);
  }

  // ---- The middleware ----

  datatype Request = Request(method_: string, path: string, key: string)

  datatype Options = Options(ignoreOperations: seq<(string, string)>, ignorePaths: seq<string>, ttl: int)

  datatype Decision = PassThrough | MissingKey | Replay(r: Response) | Conflict | Run

  predicate Checked(q: Request, o: Options) {
    && (q.method_, q.path) !in o.ignoreOperations
    && (forall i :: 0 <= i < |o.ignorePaths| ==> !(o.ignorePaths[i] <= q.path))
    && q.method_ == "POST"
  }

  /** Up to the handler call. Only a checked request with a key touches the store. */
  method Begin(q: Request, o: Options, store: Store, now: int) returns (d: Decision)
    modifies store
    ensures d.PassThrough? <==> !Checked(q, o)
    ensures d.MissingKey? <==> Checked(q, o) && q.key == ""
    ensures !d.Run? ==> store.keys == old(store.keys)
    ensures Checked(q, o) && q.key != "" ==>
      (var seen := Live(old(store.keys), q.key, now);
       && d == Decide(seen)
       && (d.Run? ==> store.keys == old(store.keys)[q.key := Reservation(now, o.ttl)]))
  {
    for i := 0 to |o.ignoreOperations|
      invariant (q.method_, q.path) !in o.ignoreOperations[..i]
    {
      if q.method_ == o.ignoreOperations[i].0 && q.path == o.ignoreOperations[i].1 { return PassThrough; }
    }
    for i := 0 to |o.ignorePaths|
      invariant forall j :: 0 <= j < i ==> !(o.ignorePaths[j] <= q.path)
    {
      if o.ignorePaths[i] <= q.path { return PassThrough; }
    }
    if q.method_ != "POST" { return PassThrough; }
    if |q.key| == 0 { return MissingKey; }
    var reserved, existing := store.TryReserve(q.key, now, o.ttl);
    if !reserved {
      if existing.Some? && existing.value.completed {
        return Replay(Response(existing.value.status, existing.value.contentType, existing.value.body));
      }
      return Conflict;
    }
    return Run;
  }

  function Decide(seen: Option<Record>): Decision {
    if seen.None? then Run
    else if seen.value.completed then Replay(Response(seen.value.status, seen.value.contentType, seen.value.body))
    else Conflict
  }

  /** After the handler call. */
  method End(q: Request, o: Options, store: Store, r: Response, now: int)
    modifies store
    ensures store.keys == if r.status >= 500 then old(store.keys) - {q.key}
      else old(store.keys)[q.key := Completed(r, now, o.ttl)]
  {
    if r.status >= 500 {
      store.Release(q.key);
      return;
    }
    store.SetResponse(q.key, r, now, o.ttl);
  }

  // ---- All requests with one key ----

  /** The store, the clock, and the start times of the handler runs under way. */
  datatype System = System(keys: map<string, Record>, now: int, runs: map<nat, int>, started: nat)

  /** Arrive is a request up to the handler call; Finish a run that returned;
      Lose a run that panicked, or whose response could not be saved. */
  datatype Action = Tick(delta: nat) | Arrive | Finish(run: nat, r: Response) | Lose(run: nat)

  function Step(s: System, a: Action, key: string, ttl: int): System {
    match a
    case Tick(delta) => s.(now := s.now + delta)
    case Arrive =>
      if Live(s.keys, key, s.now).Some? then s
      else
        s.(keys := s.keys[key := Reservation(s.now, ttl)],
           runs := s.runs[s.started := s.now],
           started := s.started + 1)
    case Finish(run, r) =>
      if run !in s.runs then s
      else s.(runs := s.runs - {run},
              keys := if r.status >= 500 then s.keys - {key} else s.keys[key := Completed(r, s.now, ttl)])
    case Lose(run) =>
      if run !in s.runs then s else s.(runs := s.runs - {run})
  }

  function After(s: System, acts: seq<Action>, key: string, ttl: int): System {
    if acts == [] then s else Step(After(s, acts[..|acts| - 1], key, ttl), acts[|acts| - 1], key, ttl)
  }

  /** Each request starts a run exactly when no live record holds its key, and then the
      key is reserved for it. */
  lemma RequestRunsIffTheKeyIsFree(s: System, acts: seq<Action>, key: string, ttl: int)
    ensures var t, u := After(s, acts, key, ttl), After(s, acts + [Arrive], key, ttl);
      && (u.started == t.started + 1 <==> Live(t.keys, key, t.now).None?)
      && (u.started == t.started || u.started == t.started + 1)
      && (u.started == t.started ==> u == t)
      && (u.started != t.started ==>
            u.runs == t.runs[t.started := t.now] && u.keys == t.keys[key := Reservation(t.now, ttl)])
  {
    assert (acts + [Arrive])[..|acts|] == acts;
  }

  /** No handler run is under way for as long as its reservation lasts. */
  ghost predicate Timely(s: System, ttl: int) {
    forall run :: run in s.runs ==> s.now < s.runs[run] + ttl
  }

  ghost predicate AlwaysTimely(s: System, acts: seq<Action>, key: string, ttl: int) {
    forall i :: 0 <= i <= |acts| ==> Timely(After(s, acts[..i], key, ttl), ttl)
  }

  ghost predicate Inv(s: System, key: string, ttl: int) {
    && (forall run :: run in s.runs ==> run < s.started && s.runs[run] <= s.now)
    && (forall run :: run in s.runs ==> key in s.keys && s.keys[key] == Reservation(s.runs[run], ttl))
    && (forall a, b :: a in s.runs && b in s.runs ==> a == b)
  }

  lemma StepKeepsInv(s: System, a: Action, key: string, ttl: int)
    requires Inv(s, key, ttl) && Timely(s, ttl)
    ensures Inv(Step(s, a, key, ttl), key, ttl)
  {
  }

  lemma {:induction false} RunKeepsInv(s: System, acts: seq<Action>, key: string, ttl: int)
    requires Inv(s, key, ttl) && AlwaysTimely(s, acts, key, ttl)
    ensures Inv(After(s, acts, key, ttl), key, ttl)
    decreases |acts|
  {
    if acts != [] {
      var front := acts[..|acts| - 1];
      forall i | 0 <= i <= |front| ensures Timely(After(s, front[..i], key, ttl), ttl) {
        assert front[..i] == acts[..i];
      }
      RunKeepsInv(s, front, key, ttl);
      assert front[..|front|] == front;
      StepKeepsInv(After(s, front, key, ttl), acts[|acts| - 1], key, ttl);
    }
  }

  function Start(now: int): System {
    System(map[], now, map[], 0)
  }

  /** If every run ends before its reservation does, no two runs are ever under
      way together. */
  lemma RunsNeverOverlap(now: int, acts: seq<Action>, key: string, ttl: int, a: nat, b: nat)
    requires AlwaysTimely(Start(now), acts, key, ttl)
    requires a in After(Start(now), acts, key, ttl).runs && b in After(Start(now), acts, key, ttl).runs
    ensures a == b
  {
    RunKeepsInv(Start(now), acts, key, ttl);
  }

  /** The bound is sharp: while a run is under way the next request starts a
      second one if and only if the first has outlived its reservation. */
  lemma SecondRunStartsIff(now: int, acts: seq<Action>, key: string, ttl: int, delta: nat, run: nat)
    requires AlwaysTimely(Start(now), acts, key, ttl) && run in After(Start(now), acts, key, ttl).runs
    ensures var s := After(Start(now), acts, key, ttl);
      var late := Step(s, Tick(delta), key, ttl);
      |Step(late, Arrive, key, ttl).runs| > 1 <==> !Timely(late, ttl)
  {
    RunKeepsInv(Start(now), acts, key, ttl);
    var s := After(Start(now), acts, key, ttl);
    var late := Step(s, Tick(delta), key, ttl);
    assert s.runs.Keys == {run};
    assert late.runs[run] == s.runs[run];
    if !Timely(late, ttl) {
      assert Step(late, Arrive, key, ttl).runs.Keys == {run, s.started};
    }
  }

  lemma {:induction false} AnswerStays(s: System, acts: seq<Action>, key: string, ttl: int, rec: Record)
    requires s.runs == map[] && key in s.keys && s.keys[key] == rec
    requires After(s, acts, key, ttl).now < rec.expiry
    ensures var t := After(s, acts, key, ttl);
      t.runs == map[] && t.keys == s.keys && Live(t.keys, key, t.now) == Some(rec)
    decreases |acts|
  {
    if acts != [] { AnswerStays(s, acts[..|acts| - 1], key, ttl, rec); }
  }

  /** After a run that ended below 500, every request until the record expires gets
      that status, content type and body, and the handler does not run again. */
  lemma ResponseIsReplayedUntilExpiry(now: int, acts: seq<Action>, run: nat, r: Response, later: seq<Action>,
      key: string, ttl: int)
    requires AlwaysTimely(Start(now), acts, key, ttl) && run in After(Start(now), acts, key, ttl).runs && r.status < 500
    requires var done := Step(After(Start(now), acts, key, ttl), Finish(run, r), key, ttl);
      After(done, later, key, ttl).now < done.now + ttl
    ensures var done := Step(After(Start(now), acts, key, ttl), Finish(run, r), key, ttl);
      var s := After(done, later, key, ttl);
      s.runs == map[] && s.started == done.started && Decide(Live(s.keys, key, s.now)) == Replay(r)
  {
    RunKeepsInv(Start(now), acts, key, ttl);
    var s := After(Start(now), acts, key, ttl);
    var done := Step(s, Finish(run, r), key, ttl);
    assert done.runs == map[];
    AnswerStays(done, later, key, ttl, Completed(r, s.now, ttl));
    NoneStarts(done, later, key, ttl, Completed(r, s.now, ttl));
  }

  lemma {:induction false} NoneStarts(s: System, acts: seq<Action>, key: string, ttl: int, rec: Record)
    requires s.runs == map[] && key in s.keys && s.keys[key] == rec && After(s, acts, key, ttl).now < rec.expiry
    ensures After(s, acts, key, ttl).started == s.started
    decreases |acts|
  {
    if acts != [] {
      var front := acts[..|acts| - 1];
      AnswerStays(s, front, key, ttl, rec);
      NoneStarts(s, front, key, ttl, rec);
    }
  }

  lemma FinishFrees(s: System, run: nat, r: Response, now: int, key: string, ttl: int)
    requires run in s.runs && r.status >= 500
    ensures Decide(Live(Step(s, Finish(run, r), key, ttl).keys, key, now)) == Run
  {
    assert key !in Step(s, Finish(run, r), key, ttl).keys;
  }

  lemma LossBlocks(s: System, run: nat, now: int, key: string, ttl: int)
    requires Inv(s, key, ttl) && run in s.runs
    ensures Decide(Live(Step(s, Lose(run), key, ttl).keys, key, now))
      == if now < s.runs[run] + ttl then Conflict else Run
  {
    assert Step(s, Lose(run), key, ttl).keys == s.keys;
  }

  /** After a run that ended with 500 or more the very next request runs the
      handler; after a lost one it conflicts until the reservation expires. */
  lemma FailedRunFreesTheKey(now: int, acts: seq<Action>, run: nat, r: Response, delta: nat, key: string, ttl: int)
    requires AlwaysTimely(Start(now), acts, key, ttl) && run in After(Start(now), acts, key, ttl).runs
      && r.status >= 500
    ensures var s := After(Start(now), acts, key, ttl);
      && Step(s, Finish(run, r), key, ttl).runs == Step(s, Lose(run), key, ttl).runs == map[]
      && Decide(Live(Step(s, Finish(run, r), key, ttl).keys, key, s.now + delta)) == Run
      && Decide(Live(Step(s, Lose(run), key, ttl).keys, key, s.now + delta))
         == if s.now + delta < s.runs[run] + ttl then Conflict else Run
  {
    RunKeepsInv(Start(now), acts, key, ttl);
    var s := After(Start(now), acts, key, ttl);
    FinishFrees(s, run, r, s.now + delta, key, ttl);
    LossBlocks(s, run, s.now + delta, key, ttl);
  }
}
