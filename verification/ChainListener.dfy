/** The chain-event listener: a cursor kept in one locked row, advanced over
    height windows whose events are triggered before the cursor is saved. */
module ChainListener {
  import opened Common
  import opened EscrowChain

  /** A window whose events were all triggered, and whether the new cursor was
      then saved. */
  datatype Window = Window(start: nat, end: nat, saved: bool)

  /** Heights after `from` and up to `to` that an initialisation stepped over. */
  datatype Jump = Jump(from: nat, to: nat)

  datatype State = State(cursor: nat, windows: seq<Window>, jumps: seq<Jump>)

  /** One use of the locked status row by any of the listeners sharing it. The
      row lock makes each atomic; without the lock nothing happens. `latest` is
      None when the block header cannot be read. */
  datatype Action =
    | Init(startingHeight: nat, locked: bool, latest: Option<nat>, saved: bool)
    | Poll(locked: bool, latest: Option<nat>, fetched: bool, saved: bool)

  function Min(x: nat, y: nat): nat {
    if x > y then y else x
  }

  /** initHeight's new cursor, None when the header is needed and missing. */
  function InitHeight(cursor: nat, startingHeight: nat, latest: Option<nat>): Option<nat> {
    var raised := if startingHeight > 0 && cursor < startingHeight - 1 then startingHeight - 1 else cursor;
    if raised == 0 then latest else Some(raised)
  }

  function Apply(maxBlocks: nat, s: State, a: Action): State {
    match a
    case Init(startingHeight, locked, latest, saved) =>
      var height := InitHeight(s.cursor, startingHeight, latest);
      if locked && saved && height.Some? && height.value > s.cursor
      then s.(cursor := height.value, jumps := s.jumps + [Jump(s.cursor, height.value)]) else s
    case Poll(locked, latest, fetched, saved) =>
      if !locked || latest.None? || latest.value <= s.cursor || !fetched then s
      else
        var start := s.cursor + 1;
        var end := Min(latest.value, start + maxBlocks);
        s.(cursor := if saved then end else s.cursor, windows := s.windows + [Window(start, end, saved)])
  }

  function Run(maxBlocks: nat, s: State, actions: seq<Action>): State
    decreases |actions|
  {
    if actions == [] then s else Run(maxBlocks, Apply(maxBlocks, s, actions[0]), actions[1..])
  }

  // ---- The windows of a run ----

  /** Where the cursor was before a window. */
  function Before(w: Window, after: nat): nat {
    if w.saved && w.start > 0 then w.start - 1 else after
  }

  /** The saved windows lie end to end from `from` to `to`, none longer than
      maxBlocks + 1 heights; an unsaved window starts where a saved one would. */
  predicate Tiled(maxBlocks: nat, windows: seq<Window>, from: nat, to: nat)
    decreases |windows|
  {
    if windows == [] then from == to
    else
      var last := windows[|windows| - 1];
      && last.start >= 1 && last.start <= last.end <= last.start + maxBlocks
      && (if last.saved then last.end == to else last.start == to + 1)
      && Tiled(maxBlocks, windows[..|windows| - 1], from, Before(last, to))
  }

  /** The furthest height whose events were triggered. */
  function Furthest(windows: seq<Window>, from: nat): nat {
    if windows == [] then from
    else
      var rest := Furthest(windows[..|windows| - 1], from);
      var end := windows[|windows| - 1].end;
      if end > rest then end else rest
  }

  /** All listeners of a deployment share one configured starting height; the
      first of them has positioned the cursor. */
  predicate Positioned(startingHeight: nat, cursor: nat) {
    cursor > 0 && cursor + 1 >= startingHeight
  }

  predicate SameConfig(startingHeight: nat, actions: seq<Action>) {
    forall a :: a in actions ==> a.Init? ==> a.startingHeight == startingHeight
  }

  lemma PositionedForGood(maxBlocks: nat, startingHeight: nat, s: State, a: Action)
    requires Positioned(startingHeight, s.cursor) && (a.Init? ==> a.startingHeight == startingHeight)
    ensures Positioned(startingHeight, Apply(maxBlocks, s, a).cursor)
    ensures a.Init? ==> Apply(maxBlocks, s, a) == s
  {
  }

  lemma TiledStep(maxBlocks: nat, s: State, a: Action, from: nat)
    requires a.Poll? && Tiled(maxBlocks, s.windows, from, s.cursor)
    ensures var t := Apply(maxBlocks, s, a); Tiled(maxBlocks, t.windows, from, t.cursor)
  {
    var t := Apply(maxBlocks, s, a);
    if t != s {
      assert t.windows[..|t.windows| - 1] == s.windows;
    }
  }

  lemma {:induction false} JumpsGrow(maxBlocks: nat, s: State, actions: seq<Action>)
    ensures s.jumps <= Run(maxBlocks, s, actions).jumps
    decreases |actions|
  {
    if actions != [] { JumpsGrow(maxBlocks, Apply(maxBlocks, s, actions[0]), actions[1..]); }
  }

  lemma {:induction false} TiledRun(maxBlocks: nat, s: State, actions: seq<Action>, from: nat)
    requires Tiled(maxBlocks, s.windows, from, s.cursor) && Run(maxBlocks, s, actions).jumps == s.jumps
    ensures var t := Run(maxBlocks, s, actions); Tiled(maxBlocks, t.windows, from, t.cursor)
    decreases |actions|
  {
    if actions != [] {
      JumpsGrow(maxBlocks, Apply(maxBlocks, s, actions[0]), actions[1..]);
      if actions[0].Poll? { TiledStep(maxBlocks, s, actions[0], from); }
      TiledRun(maxBlocks, Apply(maxBlocks, s, actions[0]), actions[1..], from);
    }
  }

  /** One shared configuration steps over nothing once the cursor is positioned. */
  lemma {:induction false} SharedConfigNeverJumps(maxBlocks: nat, startingHeight: nat, s: State, actions: seq<Action>)
    requires Positioned(startingHeight, s.cursor) && SameConfig(startingHeight, actions)
    ensures Run(maxBlocks, s, actions).jumps == s.jumps
    decreases |actions|
  {
    if actions != [] {
      PositionedForGood(maxBlocks, startingHeight, s, actions[0]);
      SharedConfigNeverJumps(maxBlocks, startingHeight, Apply(maxBlocks, s, actions[0]), actions[1..]);
    }
  }

  /** Whatever the configurations, failures and restarts, the cursor never goes
      back. */
  lemma {:induction false} CursorNeverGoesBack(maxBlocks: nat, s: State, actions: seq<Action>)
    ensures Run(maxBlocks, s, actions).cursor >= s.cursor
    decreases |actions|
  {
    if actions != [] { CursorNeverGoesBack(maxBlocks, Apply(maxBlocks, s, actions[0]), actions[1..]); }
  }

  /** A height inside some triggered window. */
  ghost predicate Scanned(windows: seq<Window>, height: nat) {
    exists i :: 0 <= i < |windows| && windows[i].start <= height <= windows[i].end
  }

  /** What tiling means for single heights: the scanned heights are exactly those
      from the first cursor to the furthest triggered window, and everything up
      to the cursor is among them. */
  lemma {:induction false} TiledScans(maxBlocks: nat, windows: seq<Window>, from: nat, to: nat)
    requires Tiled(maxBlocks, windows, from, to)
    ensures from <= to <= Furthest(windows, from)
    ensures forall height: nat :: Scanned(windows, height) <==> from < height <= Furthest(windows, from)
    decreases |windows|
  {
    if windows != [] {
      var rest := windows[..|windows| - 1];
      var last := windows[|windows| - 1];
      TiledScans(maxBlocks, rest, from, Before(last, to));
      forall height: nat ensures Scanned(windows, height) <==> from < height <= Furthest(windows, from) {
        if Scanned(rest, height) {
          var i :| 0 <= i < |rest| && rest[i].start <= height <= rest[i].end;
          assert windows[i] == rest[i];
        }
        if last.start <= height <= last.end { assert windows[|windows| - 1] == last; }
        if Scanned(windows, height) {
          var i :| 0 <= i < |windows| && windows[i].start <= height <= windows[i].end;
          if i < |rest| { assert rest[i] == windows[i]; }
        }
      }
    }
  }

  // ---- Which heights are skipped ----

  ghost predicate Jumped(jumps: seq<Jump>, height: nat) {
    exists i :: 0 <= i < |jumps| && jumps[i].from < height <= jumps[i].to
  }

  /** A height inside a triggered window that was, or was not, saved. */
  ghost predicate ScannedWith(windows: seq<Window>, height: nat, saved: bool) {
    exists i :: 0 <= i < |windows| && windows[i].saved == saved && windows[i].start <= height <= windows[i].end
  }

  ghost predicate Covered(s: State, height: nat) {
    ScannedWith(s.windows, height, true) || Jumped(s.jumps, height)
  }

  /** The saved windows and the jumps share out the heights behind the cursor. */
  ghost predicate SharedOut(s: State, from: nat) {
    && from <= s.cursor
    && (forall height: nat :: from < height <= s.cursor <==> Covered(s, height))
    && (forall height: nat :: !(ScannedWith(s.windows, height, true) && Jumped(s.jumps, height)))
  }

  predicate WindowsFit(maxBlocks: nat, windows: seq<Window>) {
    forall i :: 0 <= i < |windows| ==> windows[i].start <= windows[i].end <= windows[i].start + maxBlocks
  }

  lemma ScannedNext(windows: seq<Window>, w: Window, height: nat, saved: bool)
    ensures ScannedWith(windows + [w], height, saved)
      <==> ScannedWith(windows, height, saved) || (w.saved == saved && w.start <= height <= w.end)
  {
    var longer := windows + [w];
    if ScannedWith(windows, height, saved) {
      var i :| 0 <= i < |windows| && windows[i].saved == saved && windows[i].start <= height <= windows[i].end;
      assert longer[i] == windows[i];
    }
    if w.saved == saved && w.start <= height <= w.end { assert longer[|windows|] == w; }
  }

  lemma JumpedNext(jumps: seq<Jump>, j: Jump, height: nat)
    ensures Jumped(jumps + [j], height) <==> Jumped(jumps, height) || j.from < height <= j.to
  {
    var longer := jumps + [j];
    if Jumped(jumps, height) {
      var i :| 0 <= i < |jumps| && jumps[i].from < height <= jumps[i].to;
      assert longer[i] == jumps[i];
    }
    if j.from < height <= j.to { assert longer[|jumps|] == j; }
  }

  lemma StepSharesOut(maxBlocks: nat, s: State, a: Action, from: nat)
    requires SharedOut(s, from) && WindowsFit(maxBlocks, s.windows)
    ensures var t := Apply(maxBlocks, s, a); SharedOut(t, from) && WindowsFit(maxBlocks, t.windows)
  {
    var t := Apply(maxBlocks, s, a);
    forall height: nat
      ensures from < height <= t.cursor <==> Covered(t, height)
      ensures !(ScannedWith(t.windows, height, true) && Jumped(t.jumps, height))
    {
      assert from < height <= s.cursor <==> Covered(s, height);
      if |t.windows| > |s.windows| { ScannedNext(s.windows, t.windows[|s.windows|], height, true); }
      if |t.jumps| > |s.jumps| { JumpedNext(s.jumps, t.jumps[|s.jumps|], height); }
    }
  }

  lemma {:induction false} RunSharesOut(maxBlocks: nat, s: State, actions: seq<Action>, from: nat)
    requires SharedOut(s, from) && WindowsFit(maxBlocks, s.windows)
    ensures var t := Run(maxBlocks, s, actions); SharedOut(t, from) && WindowsFit(maxBlocks, t.windows)
    decreases |actions|
  {
    if actions != [] {
      StepSharesOut(maxBlocks, s, actions[0], from);
      RunSharesOut(maxBlocks, Apply(maxBlocks, s, actions[0]), actions[1..], from);
    }
  }

  lemma ScannedEitherWay(windows: seq<Window>, height: nat)
    ensures Scanned(windows, height) <==> ScannedWith(windows, height, true) || ScannedWith(windows, height, false)
  {
    if Scanned(windows, height) {
      var i :| 0 <= i < |windows| && windows[i].start <= height <= windows[i].end;
      assert ScannedWith(windows, height, windows[i].saved);
    }
  }

  /** In any run at all, whatever the starting heights: each height the cursor
      has passed lies in a saved window or in a jump, never in both, and it was
      skipped exactly if it was jumped and no unsaved window had reached it. */
  lemma HeightIsSkippedIffJumped(maxBlocks: nat, from: nat, actions: seq<Action>, height: nat)
    ensures var t := Run(maxBlocks, State(from, [], []), actions);
      && WindowsFit(maxBlocks, t.windows)
      && (from < height <= t.cursor <==> ScannedWith(t.windows, height, true) != Jumped(t.jumps, height))
      && (from < height <= t.cursor && !Scanned(t.windows, height)
          <==> Jumped(t.jumps, height) && !ScannedWith(t.windows, height, false))
  {
    RunSharesOut(maxBlocks, State(from, [], []), actions, from);
    var t := Run(maxBlocks, State(from, [], []), actions);
    assert from < height <= t.cursor <==> Covered(t, height);
    ScannedEitherWay(t.windows, height);
  }

  /** A height the listener stepped over and no window ever held. */
  ghost predicate Skipped(s: State, height: nat) {
    Jumped(s.jumps, height) && !Scanned(s.windows, height)
  }

  predicate Behind(s: State) {
    forall i :: 0 <= i < |s.windows| ==> s.windows[i].start <= s.cursor + 1
  }

  lemma {:induction false} RunStaysBehind(maxBlocks: nat, s: State, actions: seq<Action>)
    requires Behind(s)
    ensures Behind(Run(maxBlocks, s, actions))
    decreases |actions|
  {
    if actions != [] { RunStaysBehind(maxBlocks, Apply(maxBlocks, s, actions[0]), actions[1..]); }
  }

  lemma {:induction false} SomeWindowIsFurthest(windows: seq<Window>, from: nat)
    ensures Furthest(windows, from) == from
      || exists i :: 0 <= i < |windows| && windows[i].end == Furthest(windows, from)
    decreases |windows|
  {
    if windows != [] {
      var rest := windows[..|windows| - 1];
      SomeWindowIsFurthest(rest, from);
      if Furthest(windows, from) == windows[|windows| - 1].end {
      } else if Furthest(rest, from) != from {
        var i :| 0 <= i < |rest| && rest[i].end == Furthest(rest, from);
        assert windows[i] == rest[i];
      }
    }
  }

  /** So between the first cursor and the height reached, skipped is all that was
      not scanned, the heights beyond the cursor included. */
  lemma SkippedIffUnscanned(maxBlocks: nat, from: nat, actions: seq<Action>, height: nat)
    ensures var t := Run(maxBlocks, State(from, [], []), actions);
      Skipped(t, height)
      <==> from < height && (height <= t.cursor || height <= Furthest(t.windows, from)) && !Scanned(t.windows, height)
  {
    var t := Run(maxBlocks, State(from, [], []), actions);
    HeightIsSkippedIffJumped(maxBlocks, from, actions, height);
    ScannedEitherWay(t.windows, height);
    RunStaysBehind(maxBlocks, State(from, [], []), actions);
    CursorNeverGoesBack(maxBlocks, State(from, [], []), actions);
    SomeWindowIsFurthest(t.windows, from);
    if t.cursor < height <= Furthest(t.windows, from) {
      var i :| 0 <= i < |t.windows| && t.windows[i].end == Furthest(t.windows, from);
      assert t.windows[i].start <= height <= t.windows[i].end;
    }
  }

  /** A restart with a higher starting height: 11 to 99 are never scanned. */
  lemma RestartSkipsHeights()
    ensures var t := Run(10, State(10, [], []), [Init(100, true, None, true), Poll(true, Some(105), true, true)]);
      t == State(105, [Window(100, 105, true)], [Jump(10, 99)])
  {
  }

  /** Where no initialisation jumped, with any failures and any number of
      listeners and restarts: saved windows are contiguous and at most
      maxBlocks + 1 long, and no height up to the cursor was skipped. */
  lemma NoHeightIsSkipped(maxBlocks: nat, from: nat, actions: seq<Action>)
    requires Run(maxBlocks, State(from, [], []), actions).jumps == []
    ensures var t := Run(maxBlocks, State(from, [], []), actions);
      && t.cursor >= from
      && Tiled(maxBlocks, t.windows, from, t.cursor)
      && (forall height: nat :: from < height <= t.cursor ==> Scanned(t.windows, height))
      && (forall height: nat :: Scanned(t.windows, height) <==> from < height <= Furthest(t.windows, from))
  {
    TiledRun(maxBlocks, State(from, [], []), actions, from);
    var t := Run(maxBlocks, State(from, [], []), actions);
    TiledScans(maxBlocks, t.windows, from, t.cursor);
  }

  /** k polls in a row that meet no failure while the chain stands at `latest`. */
  function Polls(latest: nat, k: nat): seq<Action> {
    if k == 0 then [] else [Poll(true, Some(latest), true, true)] + Polls(latest, k - 1)
  }

  /** Each of them gains maxBlocks + 1 heights until the listener has caught up with
      the chain. */
  lemma {:induction false} CatchesUp(maxBlocks: nat, s: State, latest: nat, k: nat)
    requires s.cursor <= latest
    ensures Run(maxBlocks, s, Polls(latest, k)).cursor == Min(latest, s.cursor + k * (maxBlocks + 1))
    ensures Run(maxBlocks, s, Polls(latest, k)).jumps == s.jumps
    decreases k
  {
    if k > 0 {
      var poll := Poll(true, Some(latest), true, true);
      var t := Apply(maxBlocks, s, poll);
      assert ([poll] + Polls(latest, k - 1))[1..] == Polls(latest, k - 1);
      assert t.cursor == Min(latest, s.cursor + (maxBlocks + 1));
      CatchesUp(maxBlocks, t, latest, k - 1);
      assert k * (maxBlocks + 1) == (k - 1) * (maxBlocks + 1) + (maxBlocks + 1);
      assert (k - 1) * (maxBlocks + 1) >= 0;
    }
  }

  /** A fresh cursor starts scanning at the configured height exactly when that
      height is at least 2: a starting height of 1 is taken for "not set", and
      scanning begins after the latest block. */
  lemma StartingHeightHonouredIff(startingHeight: nat, latest: nat)
    requires startingHeight >= 1
    ensures InitHeight(0, startingHeight, Some(latest)).value + 1 == startingHeight
      <==> startingHeight >= 2 || latest + 1 == startingHeight
  {
  }

  lemma StartingHeightOneIsIgnored()
    ensures InitHeight(0, 1, Some(500)) == Some(500) && InitHeight(0, 2, Some(500)) == Some(1)
  {
  }

  /** The cursor one Init leaves, from any state of the row. */
  lemma InitPositions(maxBlocks: nat, s: State, startingHeight: nat, latest: nat)
    ensures var t := Apply(maxBlocks, s, Init(startingHeight, true, Some(latest), true));
      && t.cursor >= s.cursor && t.windows == s.windows
      && (Positioned(startingHeight, t.cursor) <==> latest > 0 || s.cursor > 0 || startingHeight >= 2)
  {
  }

  // ---- The listener as it is written ----

  function Flatten(batches: seq<seq<Event>>): seq<Event> {
    if batches == [] then [] else Flatten(batches[..|batches| - 1]) + batches[|batches| - 1]
  }

  class Listener {
    const maxBlocks: nat
    var cursor: nat
    var triggered: seq<Event>
    ghost var windows: seq<Window>
    ghost var jumps: seq<Jump>

    constructor (maxBlocks: nat)
      ensures this.maxBlocks == maxBlocks && cursor == 0 && triggered == [] && windows == [] && jumps == []
    {
      this.maxBlocks, cursor, triggered, windows, jumps := maxBlocks, 0, [], [], [];
    }

    /** run: fetch every event type, then trigger everything, or nothing if one
        fetch fails. `batches[i]` is the answer for the i-th type. */
    method FetchAndTrigger(batches: seq<Option<seq<Event>>>) returns (ok: bool)
      modifies this`triggered
      ensures ok <==> forall i :: 0 <= i < |batches| ==> batches[i].Some?
      ensures ok ==>
        triggered == old(triggered)
          + Flatten(seq(|batches|, i requires 0 <= i < |batches| && batches[i].Some? => batches[i].value))
      ensures !ok ==> triggered == old(triggered)
    {
      var events := [];
      var i := 0;
      while i < |batches|
        invariant 0 <= i <= |batches|
        invariant forall j :: 0 <= j < i ==> batches[j].Some?
        invariant events == Flatten(seq(i, j requires 0 <= j < i && batches[j].Some? => batches[j].value))
      {
        if batches[i].None? { return false; }
        ghost var done := seq(i, j requires 0 <= j < i && batches[j].Some? => batches[j].value);
        ghost var next := seq(i + 1, j requires 0 <= j < i + 1 && batches[j].Some? => batches[j].value);
        assert next[..i] == done;
        events := events + batches[i].value;
        i := i + 1;
      }
      triggered := triggered + events;
      ok := true;
    }

    method InitCursor(startingHeight: nat, locked: bool, latest: Option<nat>, saved: bool)
      modifies this`cursor, this`jumps
      ensures State(cursor, windows, jumps)
        == Apply(maxBlocks, State(old(cursor), windows, old(jumps)), Init(startingHeight, locked, latest, saved))
    {
      if !locked { return; }
      var height := cursor;
      if startingHeight > 0 && height < startingHeight - 1 { height := startingHeight - 1; }
      if height == 0 {
        if latest.None? { return; }
        height := latest.value;
      }
      if saved {
        if height > cursor { jumps := jumps + [Jump(cursor, height)]; }
        cursor := height;
      }
    }

    /** One tick. A failed save leaves the cursor behind events that have already
        been triggered. */
    method Tick(locked: bool, latest: Option<nat>, batches: seq<Option<seq<Event>>>, saved: bool)
      modifies this
      ensures State(cursor, windows, jumps)
              == Apply(maxBlocks, State(old(cursor), old(windows), old(jumps)),
                       Poll(locked, latest, forall i :: 0 <= i < |batches| ==> batches[i].Some?, saved))
      ensures windows == old(windows) ==> triggered == old(triggered)
      ensures windows != old(windows) ==>
        triggered == old(triggered)
          + Flatten(seq(|batches|, i requires 0 <= i < |batches| && batches[i].Some? => batches[i].value))
    {
      if !locked || latest.None? { return; }
      if latest.value > cursor {
        var start := cursor + 1;
        var end := Min(latest.value, start + maxBlocks);
        var ok := FetchAndTrigger(batches);
        if !ok { return; }
        windows := windows + [Window(start, end, saved)];
        if saved { cursor := end; }
      }
    }
  }
}
