/** Live events in any order and any number of times, re-escrow handlers whose
    lookup and write are separated by other activity, and backfill inserts: what
    the read model then says about the chain. */
module ProjectionConvergence {
  import opened Common
  import opened EscrowChain
  import opened EscrowProjection

  /** A re-escrow handler between its lookup and its write. */
  datatype Pending = Pending(event: Event, edition: Option<nat>)

  /** `applied` records the events whose handler has written. */
  datatype State = State(rows: Table, pending: map<nat, Pending>, applied: set<Event>)

  datatype Action =
    | Deliver(event: Event, clock: string)
    | Lookup(handler: nat, event: Event, ok: bool)
    | Write(handler: nat)
    | Backfill(id: nat, at: nat, claimedAt: Option<string>)

  /** The history, and how much of it lies before the listener's first cursor:
      none of those events is delivered. */
  datatype World = World(history: seq<Event>, cursor: nat)

  ghost predicate WorldOk(w: World) {
    Legal(w.history) && w.cursor <= |w.history|
  }

  function Now(w: World): Chain
    requires Legal(w.history)
  {
    Fold(w.history)
  }

  /** The chain a script sees after the first `at` events. */
  ghost function ChainAt(w: World, at: nat): Chain
    requires WorldOk(w) && at <= |w.history|
  {
    PrefixLegal(w.history, at);
    Fold(w.history[..at])
  }

  /** Only events of the chain after the cursor are delivered. */
  predicate Live(w: World, e: Event)
    requires w.cursor <= |w.history|
  {
    e in w.history[w.cursor..]
  }

  predicate Enabled(w: World, a: Action)
    requires w.cursor <= |w.history|
  {
    match a
    case Deliver(e, _) => Live(w, e) && !e.ReEscrowed?
    case Lookup(_, e, _) => Live(w, e) && e.ReEscrowed?
    case Write(_) => true
    case Backfill(_, at, _) => w.cursor <= at <= |w.history|
  }

  ghost function Apply(w: World, s: State, a: Action): State
    requires WorldOk(w)
  {
    if !Enabled(w, a) then s
    else
      match a
      case Deliver(e, clock) => s.(rows := Handled(s.rows, e, None, clock), applied := s.applied + {e})
      case Lookup(handler, e, ok) =>
        s.(pending := s.pending[handler :=
          Pending(e, if ok then EditionForCertificate(s.rows, e.certificate) else None)])
      case Write(handler) =>
        if handler !in s.pending then s
        else
          var p := s.pending[handler];
          State(Handled(s.rows, p.event, p.edition, ""), s.pending - {handler}, s.applied + {p.event})
      case Backfill(id, at, claimedAt) =>
        var c := ChainAt(w, at);
        if id in c.escrows then s.(rows := UpsertBackfillRow(s.rows, id, BackfillRow(c.escrows[id], claimedAt))) else s
  }

  ghost function Run(w: World, s: State, actions: seq<Action>): State
    requires WorldOk(w)
    decreases |actions|
  {
    if actions == [] then s else Run(w, Apply(w, s, actions[0]), actions[1..])
  }

  const EMPTY := State(map[], map[], {})

  // ---- Invariant of one row ----

  predicate SameCreation(row: Row, x: Escrow) {
    row.buyer == x.buyer && row.seller == x.seller && row.chip == x.chip && row.unlockAt == x.unlockAt
      && row.certificate == x.certificate
  }

  /** Create columns: right when complete, and an unresolved edition is marked. */
  ghost predicate CreationOk(row: Row, x: Escrow) {
    && (row.incomplete <==> row.edition.None?)
    && (row.edition.Some? ==> row.edition == Some(x.edition) && row.source != Stub)
    && (row.source != Stub ==> SameCreation(row, x))
  }

  /** Terminal columns: nothing the chain does not say. */
  ghost predicate TerminalSound(row: Row, x: Escrow) {
    && (row.status == PENDING || row.status == x.status)
    && row.reason == (if row.status == RELEASED then x.reason else None)
    && (row.claimed ==> x.claimed)
  }

  /** Nothing an applied event, or the script behind a backfilled row, said is
      missing. */
  ghost predicate EventSeen(row: Row, e: Event) {
    match e
    case Created(_, _, _, _, _, _, _, _) => row.source == FromCreated && !row.incomplete
    case ReEscrowed(_, _, _, _, _, _, _) => row.source == FromReEscrowed
    case Released(_, _, _) => row.status == RELEASED
    case Voided(_, _) => row.status == VOIDED
    case Claimed(_, _) => row.claimed
  }

  ghost predicate SnapshotSeen(row: Row, y: Escrow) {
    (y.status != PENDING ==> row.status == y.status) && (y.claimed ==> row.claimed)
  }

  /** A script that ran no earlier than the cursor read the row at `at`. */
  ghost predicate ReadAt(w: World, row: Row, id: nat, at: nat)
    requires WorldOk(w)
  {
    w.cursor <= at <= |w.history| && id in ChainAt(w, at).escrows && SnapshotSeen(row, ChainAt(w, at).escrows[id])
  }

  ghost predicate OriginOk(w: World, s: State, id: nat)
    requires WorldOk(w) && id in s.rows
  {
    match s.rows[id].source
    case Stub => true
    case FromCreated => exists e :: e in s.applied && e.id == id && e.Created?
    case FromReEscrowed => exists e :: e in s.applied && e.id == id && e.ReEscrowed?
    case FromBackfill => exists at: nat :: ReadAt(w, s.rows[id], id, at)
  }

  ghost predicate RowOk(w: World, s: State, id: nat)
    requires WorldOk(w) && id in s.rows
  {
    && id in Now(w).escrows
    && CreationOk(s.rows[id], Now(w).escrows[id])
    && TerminalSound(s.rows[id], Now(w).escrows[id])
    && OriginOk(w, s, id)
  }

  ghost predicate PendingOk(w: World, p: Pending)
    requires WorldOk(w)
  {
    && Live(w, p.event) && p.event.ReEscrowed?
    && p.event.certificate in Now(w).editions
    && (p.edition.Some? ==> p.edition.value == Now(w).editions[p.event.certificate])
  }

  ghost predicate Inv(w: World, s: State)
    requires WorldOk(w)
  {
    && (forall id :: id in s.rows ==> RowOk(w, s, id))
    && (forall h :: h in s.pending ==> PendingOk(w, s.pending[h]))
    && (forall e :: e in s.applied ==> Live(w, e) && e.id in s.rows && EventSeen(s.rows[e.id], e))
  }

  // ---- Steps ----

  lemma LiveReflected(w: World, e: Event)
    requires WorldOk(w) && Live(w, e)
    ensures e in w.history && Reflects(Now(w), e)
  {
    EventReflected(w.history, e);
  }

  lemma ResolvedEditionIsRight(w: World, s: State, certificate: nat)
    requires WorldOk(w) && (forall id :: id in s.rows ==> RowOk(w, s, id)) && certificate in Now(w).editions
    ensures var edition := EditionForCertificate(s.rows, certificate);
            edition.Some? ==> edition.value == Now(w).editions[certificate]
  {
    var edition := EditionForCertificate(s.rows, certificate);
    if edition.Some? {
      var id :| Resolves(s.rows, id, certificate) && s.rows[id].edition == edition;
      assert RowOk(w, s, id);
      FoldConsistent(w.history);
    }
  }

  /** The row an event's write leaves is in order. */
  lemma WrittenRowOk(w: World, s: State, e: Event, edition: Option<nat>, clock: string)
    requires WorldOk(w) && Inv(w, s) && Live(w, e)
    requires e.ReEscrowed? ==> PendingOk(w, Pending(e, edition))
    ensures var t := State(Handled(s.rows, e, edition, clock), s.pending, s.applied + {e});
            RowOk(w, t, e.id) && EventSeen(t.rows[e.id], e)
  {
    LiveReflected(w, e);
    FoldConsistent(w.history);
    var t := State(Handled(s.rows, e, edition, clock), s.pending, s.applied + {e});
    if e.id in s.rows { assert RowOk(w, s, e.id); }
    assert e in t.applied;
    OriginKept(w, s, e, edition, clock);
  }

  lemma OriginKept(w: World, s: State, e: Event, edition: Option<nat>, clock: string)
    requires WorldOk(w) && Inv(w, s) && Live(w, e)
    ensures OriginOk(w, State(Handled(s.rows, e, edition, clock), s.pending, s.applied + {e}), e.id)
  {
    var t := State(Handled(s.rows, e, edition, clock), s.pending, s.applied + {e});
    assert e in t.applied;
    if e.id in s.rows {
      assert RowOk(w, s, e.id);
      if s.rows[e.id].source == FromBackfill {
        var at: nat :| ReadAt(w, s.rows[e.id], e.id, at);
        PrefixGrows(w.history, at);
        LiveReflected(w, e);
        assert t.rows[e.id].source == FromBackfill ==> ReadAt(w, t.rows[e.id], e.id, at);
      }
      if s.rows[e.id].source == FromCreated {
        var c :| c in s.applied && c.id == e.id && c.Created?;
        assert c in t.applied;
      }
      if s.rows[e.id].source == FromReEscrowed {
        var c :| c in s.applied && c.id == e.id && c.ReEscrowed?;
        assert c in t.applied;
      }
    }
  }

  /** Earlier events about the same escrow stay visible under a later write. */
  lemma EarlierEventsStaySeen(w: World, s: State, e: Event, edition: Option<nat>, clock: string, d: Event)
    requires WorldOk(w) && Inv(w, s) && Live(w, e) && d in s.applied && d.id == e.id
    ensures EventSeen(Handled(s.rows, e, edition, clock)[e.id], d)
  {
    LiveReflected(w, e);
    LiveReflected(w, d);
    assert EventSeen(s.rows[d.id], d);
    if (d.Created? && e.ReEscrowed?) || (d.ReEscrowed? && e.Created?) { OneCreation(w, d, e); }
  }

  lemma OneCreation(w: World, d: Event, e: Event)
    requires WorldOk(w) && Live(w, d) && Live(w, e) && d.id == e.id
    requires d.Created? || d.ReEscrowed?
    requires e.Created? || e.ReEscrowed?
    ensures d == e
  {
    OneOfItsKind(w.history, d, e);
  }

  lemma WriteKeepsInv(w: World, s: State, e: Event, edition: Option<nat>, clock: string)
    requires WorldOk(w) && Inv(w, s) && Live(w, e)
    requires e.ReEscrowed? ==> PendingOk(w, Pending(e, edition))
    ensures Inv(w, State(Handled(s.rows, e, edition, clock), s.pending, s.applied + {e}))
  {
    var t := State(Handled(s.rows, e, edition, clock), s.pending, s.applied + {e});
    WrittenRowOk(w, s, e, edition, clock);
    forall id | id in t.rows ensures RowOk(w, t, id) {
      if id != e.id { UntouchedRow(w, s, t, id); }
    }
    forall d | d in t.applied ensures Live(w, d) && d.id in t.rows && EventSeen(t.rows[d.id], d) {
      if d != e && d.id == e.id { EarlierEventsStaySeen(w, s, e, edition, clock, d); }
    }
  }

  lemma UntouchedRow(w: World, s: State, t: State, id: nat)
    requires WorldOk(w) && id in s.rows && id in t.rows && t.rows[id] == s.rows[id] && s.applied <= t.applied
    requires RowOk(w, s, id)
    ensures RowOk(w, t, id)
  {
    if s.rows[id].source == FromCreated {
      var e :| e in s.applied && e.id == id && e.Created?;
      assert e in t.applied;
    }
    if s.rows[id].source == FromReEscrowed {
      var e :| e in s.applied && e.id == id && e.ReEscrowed?;
      assert e in t.applied;
    }
  }

  lemma BackfillKeepsInv(w: World, s: State, id: nat, at: nat, claimedAt: Option<string>)
    requires WorldOk(w) && Inv(w, s) && w.cursor <= at <= |w.history|
    ensures Inv(w, Apply(w, s, Backfill(id, at, claimedAt)))
  {
    var t := Apply(w, s, Backfill(id, at, claimedAt));
    PrefixGrows(w.history, at);
    FoldConsistent(w.history[..at]);
    FoldConsistent(w.history);
    forall k | k in t.rows ensures RowOk(w, t, k) {
      if k in s.rows { UntouchedRow(w, s, t, k); } else { assert ReadAt(w, t.rows[k], k, at); }
    }
  }

  lemma StepKeepsInv(w: World, s: State, a: Action)
    requires WorldOk(w) && Inv(w, s)
    ensures Inv(w, Apply(w, s, a))
  {
    if Enabled(w, a) {
      match a
      case Deliver(e, clock) => WriteKeepsInv(w, s, e, None, clock);
      case Lookup(handler, e, ok) =>
        LiveReflected(w, e);
        ResolvedEditionIsRight(w, s, e.certificate);
        var t := Apply(w, s, a);
        forall id | id in t.rows ensures RowOk(w, t, id) { UntouchedRow(w, s, t, id); }
      case Write(handler) =>
        if handler in s.pending {
          var p := s.pending[handler];
          var u := State(Handled(s.rows, p.event, p.edition, ""), s.pending, s.applied + {p.event});
          WriteKeepsInv(w, s, p.event, p.edition, "");
          var t := Apply(w, s, a);
          forall id | id in t.rows ensures RowOk(w, t, id) { UntouchedRow(w, u, t, id); }
        }
      case Backfill(id, at, claimedAt) => BackfillKeepsInv(w, s, id, at, claimedAt);
    }
  }

  lemma {:induction false} RunKeepsInv(w: World, s: State, actions: seq<Action>)
    requires WorldOk(w) && Inv(w, s)
    ensures Inv(w, Run(w, s, actions))
    decreases |actions|
  {
    if actions != [] {
      StepKeepsInv(w, s, actions[0]);
      RunKeepsInv(w, Apply(w, s, actions[0]), actions[1..]);
    }
  }

  // ---- Theorems ----

  /** The row says of the escrow exactly what the chain says. */
  ghost predicate Exact(row: Row, x: Escrow) {
    && SameCreation(row, x) && row.edition == Some(x.edition)
    && row.status == x.status && row.reason == x.reason && row.claimed == x.claimed
  }

  /** At every moment, a row not marked incomplete has the chain's create-time
      columns, edition included; an unresolved edition is always marked. */
  lemma CompleteRowsAreCreatedRight(w: World, actions: seq<Action>, id: nat)
    requires WorldOk(w) && id in Run(w, EMPTY, actions).rows
    ensures var row := Run(w, EMPTY, actions).rows[id];
      && id in Now(w).escrows
      && (row.incomplete <==> row.edition.None?)
      && (row.edition.Some? ==> row.edition.value == Now(w).escrows[id].edition)
      && (!row.incomplete ==> SameCreation(row, Now(w).escrows[id]))
  {
    RunKeepsInv(w, EMPTY, actions);
    assert RowOk(w, Run(w, EMPTY, actions), id);
  }

  /** Every live event's handler has written at least once. */
  ghost predicate AllApplied(w: World, s: State)
    requires WorldOk(w)
  {
    forall e :: e in w.history[w.cursor..] ==> e in s.applied
  }

  /** Every live event about one escrow has been handled at least once. */
  ghost predicate AppliedTo(w: World, s: State, id: nat)
    requires WorldOk(w)
  {
    forall e :: e in w.history[w.cursor..] && e.id == id ==> e in s.applied
  }

  /** A terminal event of a row's escrow was handled, or seen by the script the
      row came from. */
  lemma TerminalEventReachedTheRow(w: World, s: State, id: nat, i: nat)
    requires WorldOk(w) && Inv(w, s) && AppliedTo(w, s, id)
    requires id in s.rows && s.rows[id].source != Stub && i < |w.history| && w.history[i].id == id
    requires w.history[i].Released? || w.history[i].Voided? || w.history[i].Claimed?
    ensures EventSeen(s.rows[id], w.history[i])
  {
    assert RowOk(w, s, id);
    if i >= w.cursor {
      assert w.history[i] == w.history[w.cursor..][i - w.cursor];
    } else if s.rows[id].source == FromBackfill {
      var at: nat :| ReadAt(w, s.rows[id], id, at);
      ScriptReflects(w, at, i);
    } else {
      var e :| e in s.applied && e.id == id && (e.Created? || e.ReEscrowed?);
      var k :| 0 <= k < |w.history[w.cursor..]| && w.history[w.cursor..][k] == e;
      CreationComesFirst(w.history, w.cursor + k, i);
    }
  }

  lemma ScriptReflects(w: World, at: nat, i: nat)
    requires WorldOk(w) && i < at <= |w.history|
    ensures Reflects(ChainAt(w, at), w.history[i])
  {
    PrefixLegal(w.history, at);
    assert w.history[i] == w.history[..at][i];
    EventReflected(w.history[..at], w.history[i]);
  }

  /** Once every event of an escrow after the cursor has been handled, its row, if
      served (not marked incomplete), equals the chain's fold of the whole
      history, whichever of listener and backfill it came from. */
  lemma ServedRowsConverge(w: World, actions: seq<Action>, id: nat)
    requires WorldOk(w)
    requires var s := Run(w, EMPTY, actions); AppliedTo(w, s, id) && id in s.rows && !s.rows[id].incomplete
    ensures id in Now(w).escrows && Exact(Run(w, EMPTY, actions).rows[id], Now(w).escrows[id])
  {
    RunKeepsInv(w, EMPTY, actions);
    SettledRowIsExact(w, Run(w, EMPTY, actions), id);
  }

  lemma SettledRowIsExact(w: World, s: State, id: nat)
    requires WorldOk(w) && Inv(w, s) && AppliedTo(w, s, id) && id in s.rows && !s.rows[id].incomplete
    ensures id in Now(w).escrows && Exact(s.rows[id], Now(w).escrows[id])
  {
    assert RowOk(w, s, id);
    var x := Now(w).escrows[id];
    FoldConsistent(w.history);
    StatusHasEvent(w.history, id);
    if x.status != PENDING {
      var i :| 0 <= i < |w.history| && w.history[i].id == id
        && (if x.status == RELEASED then w.history[i].Released? else w.history[i].Voided?);
      TerminalEventReachedTheRow(w, s, id, i);
    }
    if x.claimed {
      var i :| 0 <= i < |w.history| && w.history[i].id == id && w.history[i].Claimed?;
      TerminalEventReachedTheRow(w, s, id, i);
    }
  }

  /** Convergence without any help from the backfill: however the events are
      ordered, repeated and interleaved, an escrow created by EscrowCreated ends
      with the columns of the chain's own fold. */
  lemma CreatedEscrowsConverge(w: World, actions: seq<Action>, e: Event)
    requires WorldOk(w)
    requires AppliedTo(w, Run(w, EMPTY, actions), e.id) && Live(w, e) && e.Created?
    ensures var s := Run(w, EMPTY, actions);
            e.id in s.rows && e.id in Now(w).escrows && Exact(s.rows[e.id], Now(w).escrows[e.id])
  {
    RunKeepsInv(w, EMPTY, actions);
    var s := Run(w, EMPTY, actions);
    assert e in s.applied && EventSeen(s.rows[e.id], e);
    ServedRowsConverge(w, actions, e.id);
  }

  // ---- Resync ----

  /** Reconciling a row with the chain mends whatever its listener missed: a complete
      row becomes exact, and no create column is touched. */
  lemma ResyncMakesRowsExact(w: World, actions: seq<Action>, id: nat, claimedAt: Option<string>)
    requires WorldOk(w) && id in Run(w, EMPTY, actions).rows && id in Now(w).escrows
    ensures var row := Run(w, EMPTY, actions).rows[id];
      var mended := Resynced(row, Now(w).escrows[id], claimedAt);
      && (Exact(mended, Now(w).escrows[id]) <==> !row.incomplete)
      && mended.claimedAt == claimedAt
      && mended.(status := row.status, reason := row.reason, claimed := row.claimed, claimedAt := row.claimedAt) == row
      && mended.status == Now(w).escrows[id].status && mended.claimed == Now(w).escrows[id].claimed
      && mended.reason == Now(w).escrows[id].reason
  {
    CompleteRowsAreCreatedRight(w, actions, id);
  }

  // ---- Events that are never delivered ----

  ghost predicate NoBackfill(actions: seq<Action>) {
    forall i :: 0 <= i < |actions| ==> !actions[i].Backfill?
  }

  /** Without a backfill a row says nothing that no handled event said. */
  ghost predicate Backed(s: State, id: nat)
    requires id in s.rows
  {
    && s.rows[id].source != FromBackfill
    && (s.rows[id].status != PENDING ==> exists d :: d in s.applied && d.id == id && (d.Released? || d.Voided?))
    && (s.rows[id].claimed ==> exists d :: d in s.applied && d.id == id && d.Claimed?)
  }

  ghost predicate AllBacked(s: State) {
    forall id :: id in s.rows ==> Backed(s, id)
  }

  lemma BackedGrows(s: State, t: State, id: nat)
    requires id in s.rows && id in t.rows && Backed(s, id) && s.applied <= t.applied
    requires var a, b := s.rows[id], t.rows[id];
      b.source != FromBackfill && b.status == a.status && b.claimed == a.claimed
    ensures Backed(t, id)
  {
    if s.rows[id].status != PENDING {
      var d :| d in s.applied && d.id == id && (d.Released? || d.Voided?);
      assert d in t.applied;
    }
    if s.rows[id].claimed {
      var d :| d in s.applied && d.id == id && d.Claimed?;
      assert d in t.applied;
    }
  }

  lemma WriteIsBacked(s: State, e: Event, edition: Option<nat>, clock: string, pending: map<nat, Pending>)
    requires AllBacked(s)
    ensures AllBacked(State(Handled(s.rows, e, edition, clock), pending, s.applied + {e}))
  {
    var t := State(Handled(s.rows, e, edition, clock), pending, s.applied + {e});
    assert e in t.applied;
    forall id | id in t.rows ensures Backed(t, id) {
      if id in s.rows {
        var u := State(s.rows, pending, t.applied);
        BackedGrows(s, u, id);
        if id != e.id { BackedGrows(u, t, id); }
      }
    }
  }

  lemma StepIsBacked(w: World, s: State, a: Action)
    requires WorldOk(w) && !a.Backfill? && AllBacked(s)
    ensures AllBacked(Apply(w, s, a))
  {
    var t := Apply(w, s, a);
    if a.Deliver? && Enabled(w, a) {
      WriteIsBacked(s, a.event, None, a.clock, s.pending);
    } else if a.Write? && a.handler in s.pending {
      WriteIsBacked(s, s.pending[a.handler].event, s.pending[a.handler].edition, "", s.pending - {a.handler});
    } else {
      forall id | id in t.rows ensures Backed(t, id) { BackedGrows(s, t, id); }
    }
  }

  lemma {:induction false} RunIsBacked(w: World, s: State, actions: seq<Action>)
    requires WorldOk(w) && NoBackfill(actions) && AllBacked(s)
    ensures AllBacked(Run(w, s, actions))
    decreases |actions|
  {
    if actions != [] {
      StepIsBacked(w, s, actions[0]);
      RunIsBacked(w, Apply(w, s, actions[0]), actions[1..]);
    }
  }

  /** Where only the listener writes, the row of an escrow created after the cursor
      says what the chain says if and only if no event of that escrow was left
      out. */
  lemma RowIsExactIffNothingIsMissed(w: World, actions: seq<Action>, e: Event)
    requires WorldOk(w) && NoBackfill(actions) && Live(w, e) && e.Created?
    ensures var s := Run(w, EMPTY, actions);
      && e.id in Now(w).escrows
      && (e.id in s.rows && Exact(s.rows[e.id], Now(w).escrows[e.id]) <==> AppliedTo(w, s, e.id))
  {
    var s := Run(w, EMPTY, actions);
    LiveReflected(w, e);
    if AppliedTo(w, s, e.id) { CreatedEscrowsConverge(w, actions, e); }
    if e.id in s.rows && Exact(s.rows[e.id], Now(w).escrows[e.id]) {
      RunKeepsInv(w, EMPTY, actions);
      RunIsBacked(w, EMPTY, actions);
      assert Inv(w, s) && Backed(s, e.id);
      forall d | Live(w, d) && d.id == e.id ensures d in s.applied { ExactMeansApplied(w, s, e, d); }
    }
  }

  lemma ExactMeansApplied(w: World, s: State, e: Event, d: Event)
    requires WorldOk(w) && Inv(w, s) && Live(w, e) && e.Created? && Live(w, d) && d.id == e.id
    requires e.id in s.rows && Backed(s, e.id) && e.id in Now(w).escrows && Exact(s.rows[e.id], Now(w).escrows[e.id])
    ensures d in s.applied
  {
    LiveReflected(w, d);
    assert RowOk(w, s, e.id);
    match d
    case Claimed(_, _) =>
      var a :| a in s.applied && a.id == d.id && a.Claimed?;
      LiveReflected(w, a);
      OneOfItsKind(w.history, a, d);
    case Released(_, _, _) => TerminalWasApplied(w, s, d);
    case Voided(_, _) => TerminalWasApplied(w, s, d);
    case _ =>
      var a :| a in s.applied && a.id == d.id && (a.Created? || a.ReEscrowed?);
      OneCreation(w, a, d);
  }

  lemma TerminalWasApplied(w: World, s: State, d: Event)
    requires WorldOk(w) && Inv(w, s) && Live(w, d) && (d.Released? || d.Voided?)
    requires d.id in s.rows && Backed(s, d.id) && s.rows[d.id].status != PENDING
    ensures d in s.applied
  {
    var a :| a in s.applied && a.id == d.id && (a.Released? || a.Voided?);
    LiveReflected(w, a);
    LiveReflected(w, d);
    OneOfItsKind(w.history, a, d);
  }

  // ---- Stubs ----

  lemma NotCreatedAgain(w: World, e: Event)
    requires WorldOk(w) && Live(w, e) && e.id in ChainAt(w, w.cursor).escrows
    ensures !e.Created? && !e.ReEscrowed?
  {
    var k :| 0 <= k < |w.history[w.cursor..]| && w.history[w.cursor..][k] == e;
    AtIndex(w.history, w.cursor + k);
    GrowsAcross(w.history, w.cursor, w.cursor + k);
  }

  ghost predicate IsStub(s: State, id: nat) {
    id in s.rows && s.rows[id].source == Stub
  }

  /** A row that a later event made for an escrow created before the cursor never
      gets its create columns: no event brings them, and a backfill leaves the
      row alone. */
  lemma {:induction false} StubIsForGood(w: World, s: State, actions: seq<Action>, id: nat)
    requires WorldOk(w) && Inv(w, s) && IsStub(s, id) && id in ChainAt(w, w.cursor).escrows
    ensures IsStub(Run(w, s, actions), id) && Run(w, s, actions).rows[id].incomplete
    decreases |actions|
  {
    if actions == [] {
      assert RowOk(w, s, id);
    } else {
      var a := actions[0];
      StepKeepsInv(w, s, a);
      if Enabled(w, a) {
        match a
        case Deliver(e, _) => if e.id == id { NotCreatedAgain(w, e); }
        case Write(handler) =>
          if handler in s.pending {
            assert PendingOk(w, s.pending[handler]);
            if s.pending[handler].event.id == id { NotCreatedAgain(w, s.pending[handler].event); }
          }
        case _ =>
      }
      StubIsForGood(w, Apply(w, s, a), actions[1..], id);
    }
  }

  // ---- When a resolved edition is lost ----

  /** Exactly one kind of step turns a resolved edition back into NULL: the write
      of a re-escrow handler whose own lookup had come back empty. */
  lemma EditionLostExactlyByAnEmptyHandedWrite(w: World, actions: seq<Action>, a: Action, id: nat)
    requires WorldOk(w)
    requires var s := Run(w, EMPTY, actions); id in s.rows && s.rows[id].edition.Some?
    ensures var s := Run(w, EMPTY, actions);
      var t := Apply(w, s, a);
      id in t.rows &&
      (t.rows[id].edition.None? <==>
         a.Write? && a.handler in s.pending && s.pending[a.handler].event.id == id
           && s.pending[a.handler].edition.None?)
  {
    RunKeepsInv(w, EMPTY, actions);
    var s := Run(w, EMPTY, actions);
    match a
    case Write(handler) => if handler in s.pending { assert PendingOk(w, s.pending[handler]); }
    case Deliver(e, clock) => HandlersKeepToTheirColumns(s.rows, e, None, clock);
    case _ =>
  }

  /** A lookup that answers while the row is resolved never comes back empty,
      so only a failed lookup, or one answered before the edition was known,
      leads to such a write. */
  lemma FreshLookupKeepsTheEdition(w: World, actions: seq<Action>, e: Event)
    requires WorldOk(w) && Live(w, e) && e.ReEscrowed?
    requires var s := Run(w, EMPTY, actions); e.id in s.rows && s.rows[e.id].edition.Some?
    ensures e.id in Now(w).escrows
            && EditionForCertificate(Run(w, EMPTY, actions).rows, e.certificate) == Some(Now(w).escrows[e.id].edition)
  {
    RunKeepsInv(w, EMPTY, actions);
    var s := Run(w, EMPTY, actions);
    assert RowOk(w, s, e.id);
    LiveReflected(w, e);
    assert Resolves(s.rows, e.id, e.certificate);
    ResolvedEditionIsRight(w, s, e.certificate);
  }

  const MINT := Created(1, "b", "s", 7, "c", "u", 5, 10)
  const AGAIN := ReEscrowed(2, 5, "c", "b2", "s", "u", 11)

  /** Two deliveries of one re-escrow, one of which looked up before the first
      escrow of its certificate was projected: the edition was resolved and is
      lost again. */
  function LosingRun(): seq<Action> {
    [Lookup(0, AGAIN, true), Deliver(MINT, ""), Lookup(1, AGAIN, true), Write(1), Write(0)]
  }

  lemma HistoryIsLegal()
    ensures Legal([MINT, AGAIN]) && 2 in Fold([MINT, AGAIN]).escrows && Fold([MINT, AGAIN]).escrows[2].edition == 7
  {
    var h := [MINT, AGAIN];
    assert h[..1] == [MINT] && [MINT][..0] == [];
    assert Legal([]) && Fold([]) == Chain(map[], map[]);
    assert Legal([MINT]) && 5 in Fold([MINT]).editions && 2 !in Fold([MINT]).escrows;
  }

  lemma ResolvedEditionCanBecomeNull()
    ensures var w := World([MINT, AGAIN], 0);
      && WorldOk(w)
      && 2 in Run(w, EMPTY, LosingRun()[..4]).rows && Run(w, EMPTY, LosingRun()[..4]).rows[2].edition == Some(7)
      && 2 in Run(w, EMPTY, LosingRun()).rows && Run(w, EMPTY, LosingRun()).rows[2].edition == None
      && Run(w, EMPTY, LosingRun()).rows[2].incomplete
  {
    HistoryIsLegal();
    var w := World([MINT, AGAIN], 0);
    assert w.history[0..] == w.history && MINT in w.history && AGAIN in w.history;
    var a := LosingRun();
    var s1 := Apply(w, EMPTY, a[0]);
    assert s1.pending[0] == Pending(AGAIN, None);
    var s2 := Apply(w, s1, a[1]);
    assert Resolves(s2.rows, 1, 5) && forall id :: Resolves(s2.rows, id, 5) ==> id == 1;
    var s3 := Apply(w, s2, a[2]);
    assert s3.pending[1] == Pending(AGAIN, Some(7));
    var s4 := Apply(w, s3, a[3]);
    var s5 := Apply(w, s4, a[4]);
    var b := a[..4];
    assert b[1..] == [a[1], a[2], a[3]] && b[1..][1..] == [a[2], a[3]] && [a[2], a[3]][1..] == [a[3]]
      && [a[3]][1..] == [];
    assert a[1..] == [a[1], a[2], a[3], a[4]] && a[1..][1..] == [a[2], a[3], a[4]]
      && [a[2], a[3], a[4]][1..] == [a[3], a[4]];
    assert [a[3], a[4]][1..] == [a[4]] && [a[4]][1..] == [];
    assert Run(w, EMPTY, b) == Run(w, s1, b[1..]) == Run(w, s2, [a[2], a[3]]) == Run(w, s3, [a[3]]) == Run(w, s4, []);
    assert Run(w, EMPTY, a) == Run(w, s1, a[1..]) == Run(w, s2, [a[2], a[3], a[4]]) == Run(w, s3, [a[3], a[4]])
      == Run(w, s4, [a[4]]);
    assert Run(w, s4, [a[4]]) == Run(w, s5, []);
  }
}
