/** The listener and the projection together: which prefix of the chain the read
    model mirrors once the triggered handlers have finished. */
module ListenerProjection {
  import opened Common
  import opened EscrowChain
  import opened EscrowProjection
  import L = ChainListener
  import P = ProjectionConvergence

  /** Events in chain order have non-decreasing heights. */
  predicate Ordered(h: seq<Event>) {
    forall i, j :: 0 <= i < j < |h| ==> h[i].height <= h[j].height
  }

  /** How many events happened up to a height. */
  function UpTo(h: seq<Event>, height: nat): (n: nat)
    ensures n <= |h|
  {
    if h == [] then 0 else if h[|h| - 1].height <= height then |h| else UpTo(h[..|h| - 1], height)
  }

  lemma {:induction false} UpToSplits(h: seq<Event>, height: nat)
    requires Ordered(h)
    ensures forall i :: 0 <= i < |h| ==> (i < UpTo(h, height) <==> h[i].height <= height)
  {
    if h != [] && h[|h| - 1].height > height {
      UpToSplits(h[..|h| - 1], height);
      forall i | 0 <= i < |h| ensures i < UpTo(h, height) <==> h[i].height <= height {
        if i < |h| - 1 { assert h[..|h| - 1][i] == h[i]; }
      }
    }
  }

  lemma UpToMonotonic(h: seq<Event>, a: nat, b: nat)
    requires Ordered(h) && a <= b
    ensures UpTo(h, a) <= UpTo(h, b)
  {
    UpToSplits(h, a);
    UpToSplits(h, b);
    if UpTo(h, a) > 0 { assert h[UpTo(h, a) - 1].height <= a; }
  }

  /** What the projection has been shown when the listener, starting behind
      `from`, has triggered `windows`. */
  function Seen(h: seq<Event>, from: nat, windows: seq<L.Window>): P.World {
    P.World(h[..UpTo(h, L.Furthest(windows, from))], UpTo(h, from))
  }

  /** A slice of an ordered history holds exactly the events of its heights. */
  lemma SliceByHeight(h: seq<Event>, from: nat, far: nat, e: Event)
    requires Ordered(h) && from <= far
    ensures UpTo(h, from) <= UpTo(h, far)
    ensures e in h[..UpTo(h, far)][UpTo(h, from)..] <==> e in h && from < e.height <= far
  {
    UpToMonotonic(h, from, far);
    UpToSplits(h, from);
    UpToSplits(h, far);
    var slice := h[..UpTo(h, far)][UpTo(h, from)..];
    if e in slice {
      var i :| 0 <= i < |slice| && slice[i] == e;
      assert h[UpTo(h, from) + i] == e;
    }
    if e in h && from < e.height <= far {
      var i :| 0 <= i < |h| && h[i] == e;
      assert slice[i - UpTo(h, from)] == e;
    }
  }

  /** Its live events are exactly those of the triggered windows. */
  lemma LiveIsTriggered(h: seq<Event>, maxBlocks: nat, from: nat, cursor: nat, windows: seq<L.Window>, e: Event)
    requires Ordered(h) && L.Tiled(maxBlocks, windows, from, cursor)
    ensures var w := Seen(h, from, windows);
      && w.cursor <= |w.history|
      && (P.Live(w, e) <==> e in h && L.Scanned(windows, e.height))
  {
    L.TiledScans(maxBlocks, windows, from, cursor);
    SliceByHeight(h, from, L.Furthest(windows, from), e);
  }

  /** The handlers of every triggered window have finished. */
  ghost predicate Finished(h: seq<Event>, from: nat, l: L.State, actions: seq<P.Action>) {
    && Legal(h) && Ordered(h)
    && var w := Seen(h, from, l.windows);
       P.WorldOk(w) && forall d :: d in h && L.Scanned(l.windows, d.height) ==> d in P.Run(w, P.EMPTY, actions).applied
  }

  ghost function RowsOf(h: seq<Event>, from: nat, l: L.State, actions: seq<P.Action>): Table
    requires Finished(h, from, l, actions)
  {
    P.Run(Seen(h, from, l.windows), P.EMPTY, actions).rows
  }

  /** What the chain says of its escrows after the events up to a height. */
  function ChainUpTo(h: seq<Event>, height: nat): Chain
    requires Legal(h)
  {
    PrefixLegal(h, UpTo(h, height));
    Fold(h[..UpTo(h, height)])
  }

  /** End to end. Whatever failed, restarted or was fetched twice: once every
      handler of every triggered window has finished, each escrow created after
      the first cursor and up to the current one equals the chain's fold of all
      events up to the furthest triggered height, which is never behind the
      cursor. */
  lemma ScannedEscrowsMirrorTheChain(
    h: seq<Event>, maxBlocks: nat, from: nat, polls: seq<L.Action>, actions: seq<P.Action>, e: Event)
    requires L.Run(maxBlocks, L.State(from, [], []), polls).jumps == []
    requires Finished(h, from, L.Run(maxBlocks, L.State(from, [], []), polls), actions)
    requires e in h && e.Created? && from < e.height <= L.Run(maxBlocks, L.State(from, [], []), polls).cursor
    ensures var l := L.Run(maxBlocks, L.State(from, [], []), polls);
      var rows, chain := RowsOf(h, from, l, actions), ChainUpTo(h, L.Furthest(l.windows, from));
      && l.cursor <= L.Furthest(l.windows, from)
      && e.id in rows && e.id in chain.escrows && P.Exact(rows[e.id], chain.escrows[e.id])
  {
    L.NoHeightIsSkipped(maxBlocks, from, polls);
    var l := L.Run(maxBlocks, L.State(from, [], []), polls);
    L.TiledScans(maxBlocks, l.windows, from, l.cursor);
    var w := Seen(h, from, l.windows);
    forall d | d in w.history[w.cursor..] ensures d in P.Run(w, P.EMPTY, actions).applied {
      LiveIsTriggered(h, maxBlocks, from, l.cursor, l.windows, d);
    }
    LiveIsTriggered(h, maxBlocks, from, l.cursor, l.windows, e);
    P.CreatedEscrowsConverge(w, actions, e);
  }

  /** Row by row: an escrow's row says what the chain said at the cursor if and
      only if no event of that escrow lies beyond the cursor in a triggered
      window, whose save then failed. */
  lemma RowMirrorsTheCursorIff(
    h: seq<Event>, maxBlocks: nat, from: nat, polls: seq<L.Action>, actions: seq<P.Action>, e: Event)
    requires L.Run(maxBlocks, L.State(from, [], []), polls).jumps == []
    requires Finished(h, from, L.Run(maxBlocks, L.State(from, [], []), polls), actions)
    requires e in h && e.Created? && from < e.height <= L.Run(maxBlocks, L.State(from, [], []), polls).cursor
    ensures var l := L.Run(maxBlocks, L.State(from, [], []), polls);
      var rows, chain := RowsOf(h, from, l, actions), ChainUpTo(h, l.cursor);
      && e.id in rows && e.id in chain.escrows
      && (P.Exact(rows[e.id], chain.escrows[e.id])
          <==> forall d :: d in h && d.id == e.id ==> !(l.cursor < d.height && L.Scanned(l.windows, d.height)))
  {
    var l := L.Run(maxBlocks, L.State(from, [], []), polls);
    ScannedEscrowsMirrorTheChain(h, maxBlocks, from, polls, actions, e);
    L.NoHeightIsSkipped(maxBlocks, from, polls);
    AgreesAtTheCursorIff(h, l.cursor, L.Furthest(l.windows, from), e);
  }

  lemma AgreesAtTheCursorIff(h: seq<Event>, cursor: nat, far: nat, e: Event)
    requires Legal(h) && Ordered(h) && cursor <= far && e in h && e.Created? && e.height <= cursor
    ensures e.id in ChainUpTo(h, cursor).escrows && e.id in ChainUpTo(h, far).escrows
    ensures ChainUpTo(h, far).escrows[e.id] == ChainUpTo(h, cursor).escrows[e.id]
      <==> forall d :: d in h && d.id == e.id ==> !(cursor < d.height <= far)
  {
    var m, n := UpTo(h, cursor), UpTo(h, far);
    UpToSplits(h, cursor);
    UpToSplits(h, far);
    UpToMonotonic(h, cursor, far);
    PrefixLegal(h, m);
    PrefixLegal(h, n);
    var k :| 0 <= k < |h| && h[k] == e;
    assert h[..m][k] == e;
    EventReflected(h[..m], e);
    GrowsAcross(h, m, n);
    PrefixesAgreeIff(h, m, n, e.id);
    if forall i :: m <= i < n ==> h[i].id != e.id {
      forall d | d in h && d.id == e.id ensures !(cursor < d.height <= far) {
        var i :| 0 <= i < |h| && h[i] == d;
      }
    } else {
      var i :| m <= i < n && h[i].id == e.id;
      assert h[i] in h && cursor < h[i].height <= far;
    }
  }

  // ---- Restarts that jump ----

  /** The height the listener has got to, over windows or jumps. */
  function Reach(l: L.State, from: nat): nat {
    var far := L.Furthest(l.windows, from);
    if l.cursor > far then l.cursor else far
  }

  function SeenUpTo(h: seq<Event>, from: nat, reach: nat): P.World {
    P.World(h[..UpTo(h, reach)], UpTo(h, from))
  }

  /** Without a backfill, exactly the events of the triggered windows have been
      handled. */
  ghost predicate HandledAsScanned(h: seq<Event>, from: nat, l: L.State, actions: seq<P.Action>) {
    && Legal(h) && Ordered(h) && P.NoBackfill(actions)
    && var w := SeenUpTo(h, from, Reach(l, from));
       P.WorldOk(w) && forall d :: P.Live(w, d) ==>
          (d in P.Run(w, P.EMPTY, actions).applied <==> L.Scanned(l.windows, d.height))
  }

  ghost function RowsUpTo(h: seq<Event>, from: nat, l: L.State, actions: seq<P.Action>): Table
    requires HandledAsScanned(h, from, l, actions)
  {
    P.Run(SeenUpTo(h, from, Reach(l, from)), P.EMPTY, actions).rows
  }

  /** Any run at all, restarts with other starting heights included: the row of a
      created escrow says what the chain says at the height reached if and only if
      no event of that escrow lies at a skipped height. */
  lemma RowMirrorsTheChainIffNothingIsSkipped(
    h: seq<Event>, maxBlocks: nat, from: nat, polls: seq<L.Action>, actions: seq<P.Action>, e: Event)
    requires HandledAsScanned(h, from, L.Run(maxBlocks, L.State(from, [], []), polls), actions)
    requires e in h && e.Created? && from < e.height <= Reach(L.Run(maxBlocks, L.State(from, [], []), polls), from)
    ensures var l := L.Run(maxBlocks, L.State(from, [], []), polls);
      var rows, chain := RowsUpTo(h, from, l, actions), ChainUpTo(h, Reach(l, from));
      && e.id in chain.escrows
      && (e.id in rows && P.Exact(rows[e.id], chain.escrows[e.id])
          <==> forall d :: d in h && d.id == e.id ==> !L.Skipped(l, d.height))
  {
    var l := L.Run(maxBlocks, L.State(from, [], []), polls);
    var reach := Reach(l, from);
    var w := SeenUpTo(h, from, reach);
    L.CursorNeverGoesBack(maxBlocks, L.State(from, [], []), polls);
    forall d ensures P.Live(w, d) <==> d in h && from < d.height <= reach { SliceByHeight(h, from, reach, d); }
    P.RowIsExactIffNothingIsMissed(w, actions, e);
    forall d: Event
      ensures from < d.height <= reach ==> (L.Skipped(l, d.height) <==> !L.Scanned(l.windows, d.height))
      ensures L.Skipped(l, d.height) ==> from < d.height <= reach
    {
      L.SkippedIffUnscanned(maxBlocks, from, polls, d.height);
    }
  }

  const MADE := Created(1, "b", "s", 7, "c", "u", 5, 2)
  const FREED := Released(1, 0, 3)

  lemma TwoEvents()
    ensures var h := [MADE, FREED];
      && Legal(h) && Ordered(h) && UpTo(h, 3) == 2 && UpTo(h, 2) == 1 && UpTo(h, 1) == 0
      && 1 in ChainUpTo(h, 2).escrows && ChainUpTo(h, 2).escrows[1].status == PENDING
  {
    var h := [MADE, FREED];
    assert h[..1] == [MADE] && [MADE][..0] == [];
    assert Legal([]) && Fold([]) == Chain(map[], map[]);
    assert Legal([MADE]) && 1 in Fold([MADE]).escrows && Fold([MADE]).escrows[1].status == PENDING;
    assert UpTo([], 1) == 0 && UpTo([MADE], 1) == 0 && UpTo([MADE], 2) == 1;
    assert UpTo(h, 2) == 1;
  }

  /** The listener of the counterexample: its second save fails. */
  function Stalled(): L.State {
    L.Run(9, L.State(1, [], []), [L.Poll(true, Some(2), true, true), L.Poll(true, Some(3), true, false)])
  }

  lemma StalledIs()
    ensures Stalled() == L.State(2, [L.Window(2, 2, true), L.Window(3, 3, false)], [])
    ensures L.Furthest(Stalled().windows, 1) == 3
  {
    var polls := [L.Poll(true, Some(2), true, true), L.Poll(true, Some(3), true, false)];
    assert polls[1..] == [L.Poll(true, Some(3), true, false)] && polls[1..][1..] == [];
    var l := L.State(2, [L.Window(2, 2, true), L.Window(3, 3, false)], []);
    assert Stalled() == l;
    assert l.windows[..1] == [L.Window(2, 2, true)] && l.windows[..1][..0] == [];
    assert L.Furthest(l.windows[..1], 1) == 2;
  }

  lemma BothDelivered(w: P.World)
    requires Legal([MADE, FREED]) && w == P.World([MADE, FREED], 0)
    ensures var t := P.Run(w, P.EMPTY, [P.Deliver(MADE, ""), P.Deliver(FREED, "")]);
      t.applied == {MADE, FREED} && 1 in t.rows && t.rows[1].status == RELEASED
  {
    assert w.history[0..] == w.history && w.history[0] == MADE && w.history[1] == FREED;
    var acts := [P.Deliver(MADE, ""), P.Deliver(FREED, "")];
    var s1 := P.Apply(w, P.EMPTY, P.Deliver(MADE, ""));
    assert acts[1..] == [P.Deliver(FREED, "")] && acts[1..][1..] == [];
    assert P.Run(w, P.EMPTY, acts) == P.Run(w, s1, acts[1..]) == P.Apply(w, s1, P.Deliver(FREED, ""));
  }

  /** The save of the second window fails: the cursor stays at 2, where the escrow
      is pending, and the row already says released. */
  lemma RowCanBeAheadOfTheCursor()
    ensures var h := [MADE, FREED];
      var acts := [P.Deliver(MADE, ""), P.Deliver(FREED, "")];
      && Stalled().cursor == 2 && Stalled().jumps == [] && Finished(h, 1, Stalled(), acts)
      && 1 in RowsOf(h, 1, Stalled(), acts) && RowsOf(h, 1, Stalled(), acts)[1].status == RELEASED
      && 1 in ChainUpTo(h, 2).escrows && ChainUpTo(h, 2).escrows[1].status == PENDING
  {
    TwoEvents();
    StalledIs();
    var h := [MADE, FREED];
    assert h[..2] == h;
    assert Seen(h, 1, Stalled().windows) == P.World(h, 0);
    BothDelivered(P.World(h, 0));
  }

  /** The furthest triggered height is the cursor exactly when no triggered but
      unsaved window reaches beyond it. */
  lemma {:induction false} FurthestIsCursorIff(maxBlocks: nat, windows: seq<L.Window>, from: nat, to: nat)
    requires L.Tiled(maxBlocks, windows, from, to)
    ensures L.Furthest(windows, from) == to
      <==> forall i :: 0 <= i < |windows| && !windows[i].saved ==> windows[i].end <= to
    decreases |windows|
  {
    L.TiledScans(maxBlocks, windows, from, to);
    SavedWithin(maxBlocks, windows, from, to);
    if forall i :: 0 <= i < |windows| && !windows[i].saved ==> windows[i].end <= to {
      FurthestBounded(windows, from, to);
    } else {
      var i :| 0 <= i < |windows| && !windows[i].saved && windows[i].end > to;
      assert windows[i].start <= windows[i].end;
      assert L.Scanned(windows, windows[i].end);
    }
  }

  lemma {:induction false} SavedWithin(maxBlocks: nat, windows: seq<L.Window>, from: nat, to: nat)
    requires L.Tiled(maxBlocks, windows, from, to)
    ensures forall i :: 0 <= i < |windows| ==>
      windows[i].start <= windows[i].end && (windows[i].saved ==> windows[i].end <= to)
    decreases |windows|
  {
    if windows != [] {
      var last := windows[|windows| - 1];
      SavedWithin(maxBlocks, windows[..|windows| - 1], from, L.Before(last, to));
      forall i | 0 <= i < |windows| ensures windows[i].start <= windows[i].end
        && (windows[i].saved ==> windows[i].end <= to) {
        if i < |windows| - 1 { assert windows[..|windows| - 1][i] == windows[i]; }
      }
    }
  }

  lemma {:induction false} FurthestBounded(windows: seq<L.Window>, from: nat, to: nat)
    requires from <= to && forall i :: 0 <= i < |windows| ==> windows[i].end <= to
    ensures L.Furthest(windows, from) <= to
    decreases |windows|
  {
    if windows != [] { FurthestBounded(windows[..|windows| - 1], from, to); }
  }
}
