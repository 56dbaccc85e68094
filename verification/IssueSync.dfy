/** The issue synchronisation script: tasks of a plan, one issue per task in the
    task's own repository, dependencies across repositories. */
module IssueSync {
  import opened Common

  datatype Task = Task(id: string, repo: string, dependsOn: seq<string>, hasAssignees: bool)

  /** OPEN or CLOSED, with or without the label "blocked". */
  datatype Issue = Issue(open: bool, blocked: bool)

  datatype Key = Key(repo: string, id: string)

  type Issues = map<Key, Issue>

  function KeyOf(t: Task): Key {
    Key(t.repo, t.id)
  }

  function Lookup(issues: Issues, k: Key): Option<Issue> {
    if k in issues then Some(issues[k]) else None
  }

  /** Ids are unique over the whole plan. */
  predicate UniqueIds(tasks: seq<Task>) {
    forall i, j :: 0 <= i < j < |tasks| ==> tasks[i].id != tasks[j].id
  }

  // ---- What the script reads ----

  /** gstate: the issue of each task id. */
  function Snapshot(tasks: seq<Task>, issues: Issues): map<string, Issue> {
    if tasks == [] then map[]
    else
      var g, t := Snapshot(tasks[..|tasks| - 1], issues), tasks[|tasks| - 1];
      if KeyOf(t) in issues then g[t.id := issues[KeyOf(t)]] else g
  }

  predicate Satisfied(dep: string, g: map<string, Issue>) {
    dep in g && !g[dep].open && !g[dep].blocked
  }

  predicate Ready(t: Task, g: map<string, Issue>) {
    forall i :: 0 <= i < |t.dependsOn| ==> Satisfied(t.dependsOn[i], g)
  }

  predicate IsDone(issues: Issues, k: Key) {
    k in issues && !issues[k].open && !issues[k].blocked
  }

  lemma {:induction false} SnapshotAt(tasks: seq<Task>, issues: Issues, i: nat)
    requires UniqueIds(tasks) && i < |tasks|
    ensures Satisfied(tasks[i].id, Snapshot(tasks, issues)) <==> IsDone(issues, KeyOf(tasks[i]))
    decreases |tasks|
  {
    var last := |tasks| - 1;
    if i < last {
      SnapshotAt(tasks[..last], issues, i);
    } else if tasks[last].id in Snapshot(tasks[..last], issues) {
      SnapshotKeys(tasks[..last], issues, tasks[last].id);
    }
  }

  lemma {:induction false} SnapshotKeys(tasks: seq<Task>, issues: Issues, id: string)
    requires id in Snapshot(tasks, issues)
    ensures exists i :: 0 <= i < |tasks| && tasks[i].id == id
    decreases |tasks|
  {
    var last := |tasks| - 1;
    if tasks[last].id != id {
      SnapshotKeys(tasks[..last], issues, id);
      var i :| 0 <= i < last && tasks[..last][i].id == id;
      assert tasks[i].id == id;
    }
  }

  /** Each dependency, in whatever repository, is a task of the plan whose own issue is
      done. */
  ghost predicate DependenciesDone(t: Task, tasks: seq<Task>, issues: Issues) {
    forall dep :: dep in t.dependsOn ==> KnownAndDone(dep, tasks, issues)
  }

  ghost predicate KnownAndDone(dep: string, tasks: seq<Task>, issues: Issues) {
    exists j :: 0 <= j < |tasks| && tasks[j].id == dep && IsDone(issues, KeyOf(tasks[j]))
  }

  lemma ReadyIffDependenciesDone(t: Task, tasks: seq<Task>, issues: Issues)
    requires UniqueIds(tasks)
    ensures Ready(t, Snapshot(tasks, issues)) <==> DependenciesDone(t, tasks, issues)
  {
    forall dep ensures Satisfied(dep, Snapshot(tasks, issues)) <==> KnownAndDone(dep, tasks, issues) {
      if j :| 0 <= j < |tasks| && tasks[j].id == dep {
        SnapshotAt(tasks, issues, j);
      } else if dep in Snapshot(tasks, issues) {
        SnapshotKeys(tasks, issues, dep);
      }
    }
    if DependenciesDone(t, tasks, issues) {
      forall i | 0 <= i < |t.dependsOn| ensures Satisfied(t.dependsOn[i], Snapshot(tasks, issues)) {
        assert t.dependsOn[i] in t.dependsOn;
      }
    }
  }

  // ---- What it does, command by command ----

  datatype Command =
    | Create(k: Key, labelled: bool)
    | Close(k: Key)
    | Reopen(k: Key)
    | AddLabel(k: Key)
    | RemoveLabel(k: Key)
    | AddAssignee(k: Key)

  function Apply(issues: Issues, c: Command): Issues {
    match c
    case Create(k, labelled) => issues[k := Issue(true, labelled)]
    case Close(k) => if k in issues then issues[k := issues[k].(open := false)] else issues
    case Reopen(k) => if k in issues then issues[k := issues[k].(open := true)] else issues
    case AddLabel(k) => if k in issues then issues[k := issues[k].(blocked := true)] else issues
    case RemoveLabel(k) => if k in issues then issues[k := issues[k].(blocked := false)] else issues
    case AddAssignee(_) => issues
  }

  function Exec(issues: Issues, cs: seq<Command>): Issues {
    if cs == [] then issues else Apply(Exec(issues, cs[..|cs| - 1]), cs[|cs| - 1])
  }

  /** The commands for one task; the assignment of a new issue, whose failure is
      tolerated, changes no state and is not listed. */
  function TaskCommands(t: Task, ready: bool, v: Option<Issue>): seq<Command> {
    var k := KeyOf(t);
    if v.None? then if ready then [Create(k, false)] else [Create(k, true), Close(k)]
    else if !v.value.open && v.value.blocked && ready then
      [RemoveLabel(k)] + (if t.hasAssignees then [AddAssignee(k)] else []) + [Reopen(k)]
    else if v.value.open && !ready && !v.value.blocked then [AddLabel(k), Close(k)]
    else []
  }

  function Commands(home: string, tasks: seq<Task>, g: map<string, Issue>, have: Issues): seq<Command> {
    if tasks == [] then []
    else
      var front, t := Commands(home, tasks[..|tasks| - 1], g, have), tasks[|tasks| - 1];
      if t.repo != home then front else front + TaskCommands(t, Ready(t, g), Lookup(have, KeyOf(t)))
  }

  class Tracker {
    var issues: Issues

    constructor (issues: Issues)
      ensures this.issues == issues
    {
      this.issues := issues;
    }

    method Run(c: Command)
      modifies this
      ensures issues == Apply(old(issues), c)
    {
      issues := Apply(issues, c);
    }

    method RunAll(cs: seq<Command>)
      modifies this
      ensures issues == Exec(old(issues), cs)
    {
      for i := 0 to |cs|
        invariant issues == Exec(old(issues), cs[..i])
      {
        assert cs[..i + 1][..i] == cs[..i];
        Run(cs[i]);
      }
      assert cs[..|cs|] == cs;
    }

    /** sync_issues for one repository. It reports nothing new, unblocked or demoted
        exactly when it has no command to run; a dry run reports the same and
        runs none. */
    method Sync(home: string, tasks: seq<Task>, dry: bool) returns (created: nat, unblocked: nat, demoted: nat)
      modifies this
      ensures var commands := Commands(home, tasks, Snapshot(tasks, old(issues)), old(issues));
        && issues == (if dry then old(issues) else Exec(old(issues), commands))
        && (created + unblocked + demoted == 0 <==> commands == [])
      ensures UniqueIds(tasks) ==>
        && issues == (if dry then old(issues) else SyncedFrom(old(issues), home, tasks))
        && (created + unblocked + demoted == 0 <==> SyncedFrom(old(issues), home, tasks) == old(issues))
    {
      created, unblocked, demoted := 0, 0, 0;
      var have, g := issues, Snapshot(tasks, issues);
      for i := 0 to |tasks|
        invariant issues == if dry then have else Exec(have, Commands(home, tasks[..i], g, have))
        invariant created + unblocked + demoted == 0 <==> Commands(home, tasks[..i], g, have) == []
      {
        assert tasks[..i + 1][..i] == tasks[..i];
        var t := tasks[i];
        if t.repo != home { continue; }
        var ok := Ready(t, g);
        var v := Lookup(have, KeyOf(t));
        if v.None? {
          created := created + 1;
        } else if !v.value.open && v.value.blocked && ok {
          unblocked := unblocked + 1;
        } else if v.value.open && !ok && !v.value.blocked {
          demoted := demoted + 1;
        }
        if dry { continue; }
        ExecConcat(have, Commands(home, tasks[..i], g, have), TaskCommands(t, ok, v));
        RunAll(TaskCommands(t, ok, v));
      }
      assert tasks[..|tasks|] == tasks;
      if UniqueIds(tasks) {
        CommandsGiveSynced(have, home, tasks, g);
        NoCommandsIffNoChange(have, home, tasks, g);
      }
    }
  }

  // ---- The effect, task by task ----

  /** What one task's issue becomes. */
  function Settle(ready: bool, v: Option<Issue>): Issue {
    if v.None? then Issue(ready, !ready)
    else if !v.value.open && v.value.blocked && ready then Issue(true, false)
    else if v.value.open && !ready && !v.value.blocked then Issue(false, true)
    else v.value
  }

  function Synced(have: Issues, home: string, tasks: seq<Task>, g: map<string, Issue>): Issues {
    if tasks == [] then have
    else
      var s, t := Synced(have, home, tasks[..|tasks| - 1], g), tasks[|tasks| - 1];
      if t.repo != home then s else s[KeyOf(t) := Settle(Ready(t, g), Lookup(have, KeyOf(t)))]
  }

  function SyncedFrom(issues: Issues, home: string, tasks: seq<Task>): Issues {
    Synced(issues, home, tasks, Snapshot(tasks, issues))
  }

  lemma SettlingChangesIff(have: Issues, s: Issues, k: Key, v: Issue)
    requires Lookup(s, k) == Lookup(have, k)
    ensures s[k := v] == have <==> s == have && Lookup(have, k) == Some(v)
  {
    if s[k := v] == have {
      assert Lookup(have, k) == Some(v);
      assert s[k := v] == s;
    }
    if s == have && Lookup(have, k) == Some(v) { assert s[k := v] == s; }
  }

  lemma CommandsSettle(s: Issues, t: Task, ready: bool)
    ensures Exec(s, TaskCommands(t, ready, Lookup(s, KeyOf(t)))) == s[KeyOf(t) := Settle(ready, Lookup(s, KeyOf(t)))]
  {
    var cs := TaskCommands(t, ready, Lookup(s, KeyOf(t)));
    ShortExec(s, cs);
  }

  lemma ShortExec(s: Issues, cs: seq<Command>)
    requires |cs| <= 3
    ensures |cs| == 0 ==> Exec(s, cs) == s
    ensures |cs| == 1 ==> Exec(s, cs) == Apply(s, cs[0])
    ensures |cs| == 2 ==> Exec(s, cs) == Apply(Apply(s, cs[0]), cs[1])
    ensures |cs| == 3 ==> Exec(s, cs) == Apply(Apply(Apply(s, cs[0]), cs[1]), cs[2])
  {
    if |cs| > 0 {
      var front := cs[..|cs| - 1];
      if |front| > 0 {
        assert front[..|front| - 1] == cs[..|cs| - 2];
        if |front| > 1 { assert cs[..|cs| - 2][..0] == []; }
      }
    }
  }

  lemma {:induction false} SyncedElsewhere(have: Issues, home: string, tasks: seq<Task>, g: map<string, Issue>, k: Key)
    requires forall i :: 0 <= i < |tasks| ==> tasks[i].repo != home || KeyOf(tasks[i]) != k
    ensures Lookup(Synced(have, home, tasks, g), k) == Lookup(have, k)
    decreases |tasks|
  {
    if tasks != [] { SyncedElsewhere(have, home, tasks[..|tasks| - 1], g, k); }
  }

  lemma {:induction false} SyncedAt(have: Issues, home: string, tasks: seq<Task>, g: map<string, Issue>, i: nat)
    requires UniqueIds(tasks) && i < |tasks| && tasks[i].repo == home
    ensures Lookup(Synced(have, home, tasks, g), KeyOf(tasks[i]))
      == Some(Settle(Ready(tasks[i], g), Lookup(have, KeyOf(tasks[i]))))
    decreases |tasks|
  {
    var last := |tasks| - 1;
    if i < last { SyncedAt(have, home, tasks[..last], g, i); }
  }

  predicate Owns(home: string, tasks: seq<Task>, k: Key) {
    exists i :: 0 <= i < |tasks| && tasks[i].repo == home && KeyOf(tasks[i]) == k
  }

  lemma {:induction false} SameAnswers(a: Issues, b: Issues)
    requires forall k :: Lookup(a, k) == Lookup(b, k)
    ensures a == b
  {
    forall k ensures k in a <==> k in b {
      assert Lookup(a, k) == Lookup(b, k);
    }
    forall k | k in a ensures a[k] == b[k] {
      assert Lookup(a, k) == Lookup(b, k);
    }
  }

  // ---- Done stays done ----

  /** A run marks nothing done and undoes nothing. */
  lemma DoneIsUnchanged(issues: Issues, home: string, tasks: seq<Task>, g: map<string, Issue>, k: Key)
    requires UniqueIds(tasks)
    ensures IsDone(Synced(issues, home, tasks, g), k) <==> IsDone(issues, k)
  {
    if i :| 0 <= i < |tasks| && tasks[i].repo == home && KeyOf(tasks[i]) == k {
      SyncedAt(issues, home, tasks, g, i);
    } else {
      SyncedElsewhere(issues, home, tasks, g, k);
    }
  }

  /** So readiness is the same before and after. */
  lemma {:induction false} ReadinessIsUnchanged(issues: Issues, after: Issues, tasks: seq<Task>, t: Task)
    requires UniqueIds(tasks) && forall k :: IsDone(after, k) <==> IsDone(issues, k)
    ensures Ready(t, Snapshot(tasks, after)) == Ready(t, Snapshot(tasks, issues))
  {
    forall dep ensures Satisfied(dep, Snapshot(tasks, after)) == Satisfied(dep, Snapshot(tasks, issues)) {
      if i :| 0 <= i < |tasks| && tasks[i].id == dep {
        SnapshotAt(tasks, issues, i);
        SnapshotAt(tasks, after, i);
      } else {
        if dep in Snapshot(tasks, after) { SnapshotKeys(tasks, after, dep); }
        if dep in Snapshot(tasks, issues) { SnapshotKeys(tasks, issues, dep); }
      }
    }
  }

  lemma SyncKeepsReadiness(issues: Issues, home: string, tasks: seq<Task>, t: Task)
    requires UniqueIds(tasks)
    ensures Ready(t, Snapshot(tasks, SyncedFrom(issues, home, tasks))) == Ready(t, Snapshot(tasks, issues))
  {
    var after := SyncedFrom(issues, home, tasks);
    forall k ensures IsDone(after, k) <==> IsDone(issues, k) {
      DoneIsUnchanged(issues, home, tasks, Snapshot(tasks, issues), k);
    }
    ReadinessIsUnchanged(issues, after, tasks, t);
  }

  /** A second run changes nothing. */
  lemma SecondRunChangesNothing(issues: Issues, home: string, tasks: seq<Task>)
    requires UniqueIds(tasks)
    ensures var once := SyncedFrom(issues, home, tasks); SyncedFrom(once, home, tasks) == once
  {
    var g := Snapshot(tasks, issues);
    var once := Synced(issues, home, tasks, g);
    var g1 := Snapshot(tasks, once);
    var twice := Synced(once, home, tasks, g1);
    forall k ensures Lookup(twice, k) == Lookup(once, k) {
      if i :| 0 <= i < |tasks| && tasks[i].repo == home && KeyOf(tasks[i]) == k {
        SyncedAt(issues, home, tasks, g, i);
        SyncedAt(once, home, tasks, g1, i);
        SyncKeepsReadiness(issues, home, tasks, tasks[i]);
      } else {
        SyncedElsewhere(once, home, tasks, g1, k);
      }
    }
    SameAnswers(twice, once);
  }

  /** The issue of k after syncing a, then b. */
  lemma AfterTwo(issues: Issues, a: string, b: string, tasks: seq<Task>, k: Key)
    requires UniqueIds(tasks) && a != b
    ensures var both := SyncedFrom(SyncedFrom(issues, a, tasks), b, tasks);
      && (forall i :: 0 <= i < |tasks| && KeyOf(tasks[i]) == k && (tasks[i].repo == a || tasks[i].repo == b) ==>
            Lookup(both, k) == Some(Settle(Ready(tasks[i], Snapshot(tasks, issues)), Lookup(issues, k))))
      && (!Owns(a, tasks, k) && !Owns(b, tasks, k) ==> Lookup(both, k) == Lookup(issues, k))
  {
    var g := Snapshot(tasks, issues);
    var one := Synced(issues, a, tasks, g);
    var g1 := Snapshot(tasks, one);
    forall i | 0 <= i < |tasks| && KeyOf(tasks[i]) == k && (tasks[i].repo == a || tasks[i].repo == b)
      ensures Lookup(Synced(one, b, tasks, g1), k) == Some(Settle(Ready(tasks[i], g), Lookup(issues, k)))
    {
      if tasks[i].repo == a {
        SyncedAt(issues, a, tasks, g, i);
        SyncedElsewhere(one, b, tasks, g1, k);
      } else {
        SyncedElsewhere(issues, a, tasks, g, k);
        SyncedAt(one, b, tasks, g1, i);
        SyncKeepsReadiness(issues, a, tasks, tasks[i]);
      }
    }
    if !Owns(a, tasks, k) && !Owns(b, tasks, k) {
      SyncedElsewhere(issues, a, tasks, g, k);
      SyncedElsewhere(one, b, tasks, g1, k);
    }
  }

  /** Runs for different repositories commute. */
  lemma RunsCommute(issues: Issues, a: string, b: string, tasks: seq<Task>)
    requires UniqueIds(tasks) && a != b
    ensures SyncedFrom(SyncedFrom(issues, a, tasks), b, tasks) == SyncedFrom(SyncedFrom(issues, b, tasks), a, tasks)
  {
    var ab := SyncedFrom(SyncedFrom(issues, a, tasks), b, tasks);
    var ba := SyncedFrom(SyncedFrom(issues, b, tasks), a, tasks);
    forall k ensures Lookup(ab, k) == Lookup(ba, k) {
      AfterTwo(issues, a, b, tasks, k);
      AfterTwo(issues, b, a, tasks, k);
      if Owns(a, tasks, k) || Owns(b, tasks, k) {
        var i :| 0 <= i < |tasks| && KeyOf(tasks[i]) == k && (tasks[i].repo == a || tasks[i].repo == b);
      }
    }
    SameAnswers(ab, ba);
  }

  // ---- Progress ----

  function SyncAll(issues: Issues, homes: seq<string>, tasks: seq<Task>): Issues {
    if homes == [] then issues
    else SyncedFrom(SyncAll(issues, homes[..|homes| - 1], tasks), homes[|homes| - 1], tasks)
  }

  lemma {:induction false} SyncAllKeepsDone(issues: Issues, homes: seq<string>, tasks: seq<Task>, k: Key)
    requires UniqueIds(tasks)
    ensures IsDone(SyncAll(issues, homes, tasks), k) <==> IsDone(issues, k)
    decreases |homes|
  {
    if homes != [] {
      var before := SyncAll(issues, homes[..|homes| - 1], tasks);
      SyncAllKeepsDone(issues, homes[..|homes| - 1], tasks, k);
      DoneIsUnchanged(before, homes[|homes| - 1], tasks, Snapshot(tasks, before), k);
    }
  }

  lemma {:induction false} SettledByReadiness(issues: Issues, homes: seq<string>, tasks: seq<Task>, i: nat)
    requires UniqueIds(tasks) && i < |tasks| && tasks[i].repo in homes
    ensures var k := KeyOf(tasks[i]);
      Lookup(SyncAll(issues, homes, tasks), k) ==
        Some(if IsDone(issues, k) then issues[k]
             else if Lookup(issues, k) == Some(Issue(true, true)) then Issue(true, true)
             else if Ready(tasks[i], Snapshot(tasks, issues)) then Issue(true, false)
             else Issue(false, true))
    decreases |homes|
  {
    var front, home := homes[..|homes| - 1], homes[|homes| - 1];
    var before := SyncAll(issues, front, tasks);
    var k := KeyOf(tasks[i]);
    forall x ensures IsDone(before, x) <==> IsDone(issues, x) { SyncAllKeepsDone(issues, front, tasks, x); }
    ReadinessIsUnchanged(issues, before, tasks, tasks[i]);
    if tasks[i].repo in front {
      SettledByReadiness(issues, front, tasks, i);
    } else {
      Untouched(issues, front, tasks, k);
    }
    if tasks[i].repo == home {
      SyncedAt(before, home, tasks, Snapshot(tasks, before), i);
    } else {
      SyncedElsewhere(before, home, tasks, Snapshot(tasks, before), k);
    }
  }

  /** Once its repository was synced a task's issue is done, or as its
      dependencies say: open if they are all done, in the backlog if not; the one
      exception is an issue found OPEN and blocked, which is left alone. */
  lemma EveryTaskIsSettled(issues: Issues, homes: seq<string>, tasks: seq<Task>, i: nat)
    requires UniqueIds(tasks) && i < |tasks| && tasks[i].repo in homes
    ensures var k := KeyOf(tasks[i]);
      Lookup(SyncAll(issues, homes, tasks), k) ==
        Some(if IsDone(issues, k) then issues[k]
             else if Lookup(issues, k) == Some(Issue(true, true)) then Issue(true, true)
             else if DependenciesDone(tasks[i], tasks, issues) then Issue(true, false)
             else Issue(false, true))
  {
    SettledByReadiness(issues, homes, tasks, i);
    ReadyIffDependenciesDone(tasks[i], tasks, issues);
  }

  lemma {:induction false} Untouched(issues: Issues, homes: seq<string>, tasks: seq<Task>, k: Key)
    requires k.repo !in homes
    ensures Lookup(SyncAll(issues, homes, tasks), k) == Lookup(issues, k)
    decreases |homes|
  {
    if homes != [] {
      var before := SyncAll(issues, homes[..|homes| - 1], tasks);
      Untouched(issues, homes[..|homes| - 1], tasks, k);
      SyncedElsewhere(before, homes[|homes| - 1], tasks, Snapshot(tasks, before), k);
    }
  }

  /** A ranking under which every dependency is a known task of lower rank. */
  ghost predicate Acyclic(tasks: seq<Task>, rank: map<string, nat>) {
    forall i :: 0 <= i < |tasks| ==> tasks[i].id in rank && DependsDown(tasks, rank, tasks[i])
  }

  ghost predicate DependsDown(tasks: seq<Task>, rank: map<string, nat>, t: Task)
    requires t.id in rank
  {
    forall d :: 0 <= d < |t.dependsOn| ==>
      t.dependsOn[d] in rank && rank[t.dependsOn[d]] < rank[t.id]
      && exists j :: 0 <= j < |tasks| && tasks[j].id == t.dependsOn[d]
  }

  /** From any task that is not done one reaches a ready one. */
  lemma {:induction false} SomeTaskIsReady(issues: Issues, tasks: seq<Task>, rank: map<string, nat>, i: nat)
    returns (r: nat)
    requires UniqueIds(tasks) && Acyclic(tasks, rank) && i < |tasks| && !IsDone(issues, KeyOf(tasks[i]))
    ensures r < |tasks| && !IsDone(issues, KeyOf(tasks[r])) && Ready(tasks[r], Snapshot(tasks, issues))
    decreases rank[tasks[i].id]
  {
    var t := tasks[i];
    assert DependsDown(tasks, rank, t);
    if d :| 0 <= d < |t.dependsOn| && !Satisfied(t.dependsOn[d], Snapshot(tasks, issues)) {
      var j :| 0 <= j < |tasks| && tasks[j].id == t.dependsOn[d];
      SnapshotAt(tasks, issues, j);
      r := SomeTaskIsReady(issues, tasks, rank, j);
    } else {
      r := i;
    }
  }

  /** The plan never stalls: after every repository was synced either all tasks are
      done or some issue is OPEN with all its dependencies done. */
  lemma PlanNeverStalls(issues: Issues, homes: seq<string>, tasks: seq<Task>, rank: map<string, nat>)
    requires UniqueIds(tasks) && Acyclic(tasks, rank) && forall i :: 0 <= i < |tasks| ==> tasks[i].repo in homes
    ensures var after := SyncAll(issues, homes, tasks);
      (forall i :: 0 <= i < |tasks| ==> IsDone(after, KeyOf(tasks[i])))
      || exists i :: 0 <= i < |tasks| && KeyOf(tasks[i]) in after && after[KeyOf(tasks[i])].open
                     && DependenciesDone(tasks[i], tasks, after)
  {
    var after := SyncAll(issues, homes, tasks);
    forall x ensures IsDone(after, x) <==> IsDone(issues, x) { SyncAllKeepsDone(issues, homes, tasks, x); }
    if i :| 0 <= i < |tasks| && !IsDone(after, KeyOf(tasks[i])) {
      var r := SomeTaskIsReady(issues, tasks, rank, i);
      EveryTaskIsSettled(issues, homes, tasks, r);
      ReadinessIsUnchanged(issues, after, tasks, tasks[r]);
      ReadyIffDependenciesDone(tasks[r], tasks, issues);
      ReadyIffDependenciesDone(tasks[r], tasks, after);
      assert Lookup(after, KeyOf(tasks[r])).value.open;
    }
  }

  // ---- Interrupted runs ----

  /** The last command executed was the first half of an unblock. */
  predicate BetweenUnlabelAndReopen(cs: seq<Command>) {
    cs != [] && (cs[|cs| - 1].RemoveLabel? || cs[|cs| - 1].AddAssignee?)
  }

  lemma {:induction false} ExecConcat(s: Issues, a: seq<Command>, b: seq<Command>)
    ensures Exec(s, a + b) == Exec(Exec(s, a), b)
    decreases |b|
  {
    if b == [] {
      assert a + b == a;
    } else {
      ExecConcat(s, a, b[..|b| - 1]);
      assert (a + b)[..|a + b| - 1] == a + b[..|b| - 1];
    }
  }

  lemma {:induction false} CommandsGiveSynced(have: Issues, home: string, tasks: seq<Task>, g: map<string, Issue>)
    requires UniqueIds(tasks)
    ensures Exec(have, Commands(home, tasks, g, have)) == Synced(have, home, tasks, g)
    decreases |tasks|
  {
    if tasks != [] {
      var front, t := tasks[..|tasks| - 1], tasks[|tasks| - 1];
      CommandsGiveSynced(have, home, front, g);
      if t.repo == home {
        SyncedElsewhere(have, home, front, g, KeyOf(t));
        ExecConcat(have, Commands(home, front, g, have), TaskCommands(t, Ready(t, g), Lookup(have, KeyOf(t))));
        CommandsSettle(Synced(have, home, front, g), t, Ready(t, g));
      }
    }
  }

  /** Ids being unique, no command is issued exactly when there is nothing to
      change. */
  lemma {:induction false} NoCommandsIffNoChange(have: Issues, home: string, tasks: seq<Task>, g: map<string, Issue>)
    requires UniqueIds(tasks)
    ensures Commands(home, tasks, g, have) == [] <==> Synced(have, home, tasks, g) == have
    decreases |tasks|
  {
    if tasks != [] {
      var front, t := tasks[..|tasks| - 1], tasks[|tasks| - 1];
      NoCommandsIffNoChange(have, home, front, g);
      if t.repo == home {
        SyncedElsewhere(have, home, front, g, KeyOf(t));
        var v := Settle(Ready(t, g), Lookup(have, KeyOf(t)));
        SettlingChangesIff(have, Synced(have, home, front, g), KeyOf(t), v);
        assert TaskCommands(t, Ready(t, g), Lookup(have, KeyOf(t))) == [] <==> Lookup(have, KeyOf(t)) == Some(v);
      }
    }
  }

  /** Stopping inside one task's commands. */
  lemma CutInsideTask(s: Issues, t: Task, ready: bool, cut: nat)
    requires cut <= |TaskCommands(t, ready, Lookup(s, KeyOf(t)))|
    ensures var cs := TaskCommands(t, ready, Lookup(s, KeyOf(t)));
      (forall k :: k != KeyOf(t) ==> Lookup(Exec(s, cs[..cut]), k) == Lookup(s, k))
      && ((IsDone(Exec(s, cs[..cut]), KeyOf(t)) <==> IsDone(s, KeyOf(t))) <==> !BetweenUnlabelAndReopen(cs[..cut]))
  {
    var cs := TaskCommands(t, ready, Lookup(s, KeyOf(t)));
    ShortExec(s, cs[..cut]);
  }

  /** A run that stops after any of its commands (one of them failed) leaves the
      set of done tasks as it was if and only if it did not stop between removing
      a label and reopening the issue. */
  lemma {:induction false} InterruptedRunKeepsDoneIff(
    have: Issues, home: string, tasks: seq<Task>, g: map<string, Issue>, cut: nat)
    requires UniqueIds(tasks) && cut <= |Commands(home, tasks, g, have)|
    ensures var done := Commands(home, tasks, g, have)[..cut];
      (forall k :: IsDone(Exec(have, done), k) <==> IsDone(have, k)) <==> !BetweenUnlabelAndReopen(done)
    decreases |tasks|
  {
    var done := Commands(home, tasks, g, have)[..cut];
    if tasks != [] {
      var front, t := tasks[..|tasks| - 1], tasks[|tasks| - 1];
      var first := Commands(home, front, g, have);
      if cut <= |first| {
        assert done == first[..cut];
        InterruptedRunKeepsDoneIff(have, home, front, g, cut);
      } else {
        var own := TaskCommands(t, Ready(t, g), Lookup(have, KeyOf(t)));
        var rest := own[..cut - |first|];
        assert done == first + rest;
        ExecConcat(have, first, rest);
        CommandsGiveSynced(have, home, front, g);
        var s := Synced(have, home, front, g);
        SyncedElsewhere(have, home, front, g, KeyOf(t));
        CutInsideTask(s, t, Ready(t, g), |rest|);
        forall k ensures IsDone(s, k) <==> IsDone(have, k) { DoneIsUnchanged(have, home, front, g, k); }
        CutDecides(have, s, Exec(s, rest), KeyOf(t));
      }
    }
  }

  lemma CutDecides(have: Issues, s: Issues, cut: Issues, k: Key)
    requires forall x :: IsDone(s, x) <==> IsDone(have, x)
    requires forall x :: x != k ==> Lookup(cut, x) == Lookup(s, x)
    ensures (forall x :: IsDone(cut, x) <==> IsDone(have, x)) <==> (IsDone(cut, k) <==> IsDone(s, k))
  {
    forall x | x != k ensures IsDone(cut, x) <==> IsDone(s, x) {
      assert Lookup(cut, x) == Lookup(s, x);
    }
  }

  /** The issue left in between counts as done from then on: no later run of any
      repository takes that back. */
  lemma StrandedIssueStaysDone(issues: Issues, k: Key, homes: seq<string>, tasks: seq<Task>)
    requires UniqueIds(tasks) && Lookup(issues, k) == Some(Issue(false, true))
    ensures IsDone(SyncAll(Apply(issues, RemoveLabel(k)), homes, tasks), k)
  {
    SyncAllKeepsDone(Apply(issues, RemoveLabel(k)), homes, tasks, k);
  }
}
