/** One job of the worker pool: its database row with a timed lease, any number
    of stale queued copies, and any number of workers. */
module JobPool {
  import opened Common

  datatype JobState = Init | Accepted | NoAvailableWorkers | Error | Complete | Failed

  datatype Job = Job(state: JobState, execCount: nat, updatedAt: int, error: string, errors: seq<string>)

  datatype Config = Config(grace: nat, reschedule: nat, maxErrors: nat)

  /** An execution in progress: the worker's own copy and when it was accepted. */
  datatype Execution = Execution(copy: Job, since: int)

  /** `creator` is the copy CreateJob returned, until it is passed to Schedule.
      `reports` counts executor results that were errors of the job itself;
      `lateLosses` those after the error budget whose row update failed. */
  datatype State = State(
    row: Job, now: int, queue: seq<Job>, running: map<nat, Execution>, creator: Option<Job>,
    reports: nat, lateLosses: nat)

  datatype Outcome = Succeeded | ConnectionLost | Erred(message: string, permanent: bool)

  /** AcceptJob's transaction: committed, refused with an error, or (its Commit
      result is not looked at) lost without anyone noticing. */
  datatype Commit = Committed | Refused | LostSilently

  datatype Action =
    | Schedule(halted: bool, room: bool, write: Write)
    | Poll
    | Take(worker: nat, index: nat, commit: Commit)
    | NoExecutor(worker: nat, write: Write)
    | Finish(worker: nat, outcome: Outcome, write: Write)
    | Crash(worker: nat)
    | Tick(elapsed: nat)

  // ---- The store's rules ----

  predicate Acceptable(j: Job, now: int, grace: nat) {
    && !(j.state == Accepted && j.updatedAt > now - grace)
    && j.state != Complete && j.state != Failed
  }

  predicate Schedulable(j: Job, now: int, c: Config) {
    || ((j.state == Init || j.state == Accepted) && j.updatedAt < now - c.grace)
    || ((j.state == Error || j.state == NoAvailableWorkers) && j.updatedAt < now - c.reschedule)
  }

  /** The copy a successful AcceptJob leaves with the worker, and in the row. */
  function AcceptedCopy(copy: Job, row: Job, now: int): Job {
    copy.(state := Accepted, execCount := row.execCount + 1, updatedAt := now)
  }

  /** The copy after its execution, None when it goes back to the pool. */
  function Processed(copy: Job, outcome: Outcome, maxErrors: nat): Option<Job> {
    match outcome
    case Succeeded => Some(copy.(state := Complete, error := ""))
    case ConnectionLost => None
    case Erred(message, permanent) =>
      Some(copy.(state := if copy.execCount > maxErrors || permanent then Failed else Error,
                 error := message, errors := copy.errors + [message]))
  }

  function Saved(row: Job, copy: Job, write: Write, now: int): Job {
    if write == Rejected then row else copy.(updatedAt := now)
  }

  // ---- Steps ----

  function ApplySchedule(s: State, halted: bool, room: bool, write: Write): State {
    if s.creator.None? then s
    else if halted then s.(creator := None)
    else if room then s.(creator := None, queue := s.queue + [s.creator.value])
    else s.(creator := None, row := Saved(s.row, s.creator.value.(state := NoAvailableWorkers), write, s.now))
  }

  function ApplyTake(c: Config, s: State, worker: nat, index: nat, commit: Commit): State {
    if worker in s.running || index >= |s.queue| then s
    else
      var copy := s.queue[index];
      var t := s.(queue := s.queue[..index] + s.queue[index + 1..]);
      if !Acceptable(copy, s.now, c.grace) || !Acceptable(s.row, s.now, c.grace) || commit == Refused then t
      else
        var mine := AcceptedCopy(copy, s.row, s.now);
        t.(row := if commit == Committed then mine else s.row, running := s.running[worker := Execution(mine, s.now)])
  }

  function ApplyFinish(c: Config, s: State, worker: nat, outcome: Outcome, write: Write): State {
    if worker !in s.running then s
    else
      var copy := s.running[worker].copy;
      var t := s.(running := s.running - {worker});
      var after := Processed(copy, outcome, c.maxErrors);
      if after.None? then t
      else
        t.(row := Saved(s.row, after.value, write, s.now),
           reports := if outcome.Erred? then s.reports + 1 else s.reports,
           lateLosses := if outcome.Erred? && write == Rejected && copy.execCount > c.maxErrors
                         then s.lateLosses + 1 else s.lateLosses)
  }

  function Apply(c: Config, s: State, a: Action): State {
    match a
    case Schedule(halted, room, write) => ApplySchedule(s, halted, room, write)
    case Poll => if Schedulable(s.row, s.now, c) then s.(queue := s.queue + [s.row]) else s
    case Take(worker, index, commit) => ApplyTake(c, s, worker, index, commit)
    case NoExecutor(worker, write) =>
      if worker !in s.running then s
      else s.(running := s.running - {worker},
              row := Saved(s.row, s.running[worker].copy.(state := NoAvailableWorkers), write, s.now))
    case Finish(worker, outcome, write) => ApplyFinish(c, s, worker, outcome, write)
    case Crash(worker) => s.(running := s.running - {worker})
    case Tick(elapsed) => s.(now := s.now + elapsed)
  }

  function Run(c: Config, s: State, actions: seq<Action>): State
    decreases |actions|
  {
    if actions == [] then s else Run(c, Apply(c, s, actions[0]), actions[1..])
  }

  /** The row CreateJob inserts, its creator still holding the copy. */
  function Fresh(now: int): State {
    var job := Job(Init, 0, now, "", []);
    State(job, now, [], map[], Some(job), 0, 0)
  }

  // ---- Assumptions on a run ----

  /** Executions end before the grace period is over; a commit AcceptJob reports
      has happened; a Schedule that overflows is not late. */
  ghost predicate Prompt(c: Config, s: State, a: Action) {
    match a
    case Tick(elapsed) => forall w :: w in s.running ==> s.now + elapsed < s.running[w].since + c.grace
    case Take(_, _, commit) => commit != LostSilently
    case Schedule(_, _, _) => Overflows(s, a) ==> s.now < s.creator.value.updatedAt + c.grace
    case _ => true
  }

  /** The creator's copy is written back because the queue is full. */
  predicate Overflows(s: State, a: Action) {
    a.Schedule? && s.creator.Some? && !a.halted && !a.room && a.write != Rejected
  }

  ghost predicate PromptRun(c: Config, s: State, actions: seq<Action>)
    decreases |actions|
  {
    actions == [] || (Prompt(c, s, actions[0]) && PromptRun(c, Apply(c, s, actions[0]), actions[1..]))
  }

  // ---- Invariant ----

  predicate Terminal(j: Job) {
    j.state == Complete || j.state == Failed
  }

  ghost predicate Inv(c: Config, s: State) {
    && c.grace > 0 && s.row.updatedAt <= s.now
    && (forall w :: w in s.running ==>
          && s.running[w].copy == s.row && s.row.state == Accepted
          && s.row.updatedAt == s.running[w].since && s.running[w].since <= s.now < s.running[w].since + c.grace)
    && (forall v, w :: v in s.running && w in s.running ==> v == w)
    && (s.creator.Some? && s.now < s.creator.value.updatedAt + c.grace ==>
          s.row == s.creator.value && s.row.state == Init && s.queue == [] && s.running == map[])
    && (if s.running == map[] then s.reports <= s.row.execCount else s.reports + 1 <= s.row.execCount)
    && s.reports <= c.maxErrors + s.lateLosses + (if s.row.state == Failed then 1 else 0)
  }

  lemma AcceptKeepsInv(c: Config, s: State, worker: nat, index: nat, commit: Commit)
    requires Inv(c, s) && commit != LostSilently
    ensures Inv(c, Apply(c, s, Take(worker, index, commit)))
  {
    var t := Apply(c, s, Take(worker, index, commit));
    if t.running != s.running {
      assert forall w :: w in s.running ==> !Acceptable(s.row, s.now, c.grace);
      assert s.running == map[];
      assert worker in t.running;
    }
  }

  lemma FinishKeepsInv(c: Config, s: State, worker: nat, outcome: Outcome, write: Write)
    requires Inv(c, s)
    ensures Inv(c, Apply(c, s, Finish(worker, outcome, write)))
  {
    if worker in s.running { OnlyRunner(c, s, worker); }
  }

  lemma OnlyRunner(c: Config, s: State, worker: nat)
    requires Inv(c, s) && worker in s.running
    ensures s.running - {worker} == map[] && s.running != map[]
  {
  }

  lemma StepKeepsInv(c: Config, s: State, a: Action)
    requires Inv(c, s) && Prompt(c, s, a)
    ensures Inv(c, Apply(c, s, a))
  {
    match a
    case Take(worker, index, commit) => AcceptKeepsInv(c, s, worker, index, commit);
    case Finish(worker, outcome, write) => FinishKeepsInv(c, s, worker, outcome, write);
    case NoExecutor(worker, write) => if worker in s.running { OnlyRunner(c, s, worker); }
    case Crash(worker) => if worker in s.running { OnlyRunner(c, s, worker); }
    case _ =>
  }

  lemma {:induction false} RunKeepsInv(c: Config, s: State, actions: seq<Action>)
    requires Inv(c, s) && PromptRun(c, s, actions)
    ensures Inv(c, Run(c, s, actions))
    decreases |actions|
  {
    if actions != [] {
      StepKeepsInv(c, s, actions[0]);
      RunKeepsInv(c, Apply(c, s, actions[0]), actions[1..]);
    }
  }

  // ---- Theorems ----

  /** Two workers never execute the job at the same time, however many stale
      copies of it are queued; the one executing holds the row's live lease. */
  lemma ExecutionsNeverOverlap(c: Config, now: int, actions: seq<Action>, v: nat, w: nat)
    requires c.grace > 0 && PromptRun(c, Fresh(now), actions)
    requires var s := Run(c, Fresh(now), actions); v in s.running && w in s.running
    ensures v == w
    ensures var s := Run(c, Fresh(now), actions);
            v in s.running && s.row == s.running[v].copy && !Acceptable(s.row, s.now, c.grace)
  {
    RunKeepsInv(c, Fresh(now), actions);
  }

  /** COMPLETE and FAILED are never left. */
  lemma TerminalIsForGood(c: Config, now: int, actions: seq<Action>, more: seq<Action>)
    requires c.grace > 0 && PromptRun(c, Fresh(now), actions) && PromptRun(c, Run(c, Fresh(now), actions), more)
    requires Terminal(Run(c, Fresh(now), actions).row)
    ensures Run(c, Run(c, Fresh(now), actions), more).row == Run(c, Fresh(now), actions).row
  {
    RunKeepsInv(c, Fresh(now), actions);
    TerminalStays(c, Run(c, Fresh(now), actions), more);
  }

  lemma {:induction false} TerminalStays(c: Config, s: State, actions: seq<Action>)
    requires Inv(c, s) && PromptRun(c, s, actions) && Terminal(s.row)
    ensures Run(c, s, actions).row == s.row
    decreases |actions|
  {
    if actions != [] {
      StepKeepsInv(c, s, actions[0]);
      assert Apply(c, s, actions[0]).row == s.row;
      TerminalStays(c, Apply(c, s, actions[0]), actions[1..]);
    }
  }

  /** Nothing leaves COMPLETE or FAILED but a Schedule that finds the queue full
      while its creator still holds the copy. */
  lemma TerminalIsLeftIff(c: Config, now: int, actions: seq<Action>, a: Action)
    requires c.grace > 0 && PromptRun(c, Fresh(now), actions) && Terminal(Run(c, Fresh(now), actions).row)
    ensures var s := Run(c, Fresh(now), actions);
      Apply(c, s, a).row != s.row <==> Overflows(s, a)
  {
    RunKeepsInv(c, Fresh(now), actions);
    CreatorHoldsInit(c, Fresh(now), actions);
    var s := Run(c, Fresh(now), actions);
    assert s.running == map[];
  }

  lemma {:induction false} CreatorHoldsInit(c: Config, s: State, actions: seq<Action>)
    requires s.creator.Some? ==> s.creator.value.state == Init && s.creator.value.errors == []
    ensures var t := Run(c, s, actions);
      t.creator.Some? ==> t.creator.value.state == Init && t.creator.value.errors == []
    decreases |actions|
  {
    if actions != [] { CreatorHoldsInit(c, Apply(c, s, actions[0]), actions[1..]); }
  }

  /** What frees the row under a running worker, whatever the next step is: its
      acceptance was not committed, its grace period is over, or a late Schedule
      found the queue full. */
  lemma LeaseIsLostIff(c: Config, now: int, actions: seq<Action>, a: Action, w: nat)
    requires c.grace > 0 && PromptRun(c, Fresh(now), actions)
    requires w in Apply(c, Run(c, Fresh(now), actions), a).running
    ensures var s := Run(c, Fresh(now), actions);
      var t := Apply(c, s, a);
      Acceptable(t.row, t.now, c.grace) <==>
        || (w !in s.running && a.Take? && a.commit == LostSilently)
        || (w in s.running && a.Tick? && s.now + a.elapsed >= s.running[w].since + c.grace)
        || (w in s.running && Overflows(s, a))
  {
    RunKeepsInv(c, Fresh(now), actions);
    CreatorHoldsInit(c, Fresh(now), actions);
  }

  /** The row's error log loses an entry exactly when a queued copy that lacks it is
      accepted, or a late Schedule writes the creator's copy back. */
  lemma ErrorLogShrinksIff(c: Config, now: int, actions: seq<Action>, a: Action)
    requires c.grace > 0 && PromptRun(c, Fresh(now), actions)
    ensures var s := Run(c, Fresh(now), actions);
      !(s.row.errors <= Apply(c, s, a).row.errors) <==>
        || (Overflows(s, a) && s.row.errors != [])
        || (Starts(c, s, a) && a.commit == Committed && !(s.row.errors <= s.queue[a.index].errors))
  {
    RunKeepsInv(c, Fresh(now), actions);
    CreatorHoldsInit(c, Fresh(now), actions);
  }

  /** The step is an acceptance that succeeds. */
  predicate Starts(c: Config, s: State, a: Action)
    ensures Starts(c, s, a) ==> a.Take? && a.index < |s.queue|
  {
    && a.Take? && a.worker !in s.running && a.index < |s.queue| && a.commit != Refused
    && Acceptable(s.queue[a.index], s.now, c.grace) && Acceptable(s.row, s.now, c.grace)
  }

  /** While one worker executes, another that takes an acceptable copy starts a
      second execution if and only if the first has outlived its grace period. */
  lemma SecondExecutionStartsIff(c: Config, now: int, actions: seq<Action>, w: nat, v: nat, elapsed: nat, index: nat)
    requires c.grace > 0 && PromptRun(c, Fresh(now), actions)
    requires var s := Run(c, Fresh(now), actions);
      && w in s.running && v !in s.running && index < |s.queue|
      && Acceptable(s.queue[index], s.now + elapsed, c.grace)
    ensures var s := Run(c, Fresh(now), actions);
      v in Apply(c, Apply(c, s, Tick(elapsed)), Take(v, index, Committed)).running
      <==> s.now + elapsed >= s.running[w].since + c.grace
  {
    RunKeepsInv(c, Fresh(now), actions);
  }

  /** From any state at all: once a worker has taken the job and nothing but time
      within the grace period has passed, another that takes an acceptable copy
      starts a second execution if and only if the first acceptance was never
      committed. */
  lemma OverlapsIffTheCommitWasLost(
    c: Config, s: State, w: nat, i: nat, commit: Commit, elapsed: nat, v: nat, j: nat, second: Commit)
    requires elapsed < c.grace && second != Refused
    requires var t := Apply(c, s, Take(w, i, commit));
      && w !in s.running && w in t.running && v !in t.running
      && j < |t.queue| && Acceptable(t.queue[j], t.now + elapsed, c.grace)
    ensures var t := Apply(c, s, Take(w, i, commit));
      v in Apply(c, Apply(c, t, Tick(elapsed)), Take(v, j, second)).running <==> commit == LostSilently
  {
  }

  /** An error report ends the job exactly when its update is written and it was
      permanent or beyond the limit. */
  lemma ReportIsTerminalIff(c: Config, now: int, actions: seq<Action>, w: nat, message: string, permanent: bool,
      write: Write)
    requires c.grace > 0 && PromptRun(c, Fresh(now), actions) && w in Run(c, Fresh(now), actions).running
    ensures var s := Run(c, Fresh(now), actions);
      Terminal(Apply(c, s, Finish(w, Erred(message, permanent), write)).row)
      <==> write != Rejected && (permanent || s.running[w].copy.execCount > c.maxErrors)
  {
    RunKeepsInv(c, Fresh(now), actions);
  }

  /** What the end of an execution writes, if its update is not refused: a success
      makes the row COMPLETE and clears the error, an error is appended to the log
      and ends the job or leaves it for a retry, a lost connection writes nothing. */
  lemma FinishWrites(c: Config, now: int, actions: seq<Action>, w: nat, outcome: Outcome, write: Write)
    requires c.grace > 0 && PromptRun(c, Fresh(now), actions) && w in Run(c, Fresh(now), actions).running
    ensures var s := Run(c, Fresh(now), actions);
      var t := Apply(c, s, Finish(w, outcome, write));
      && t.running == map[] && t.queue == s.queue
      && t.row == (if write == Rejected then s.row
                   else match outcome
                        case Succeeded => s.row.(state := Complete, error := "", updatedAt := s.now)
                        case ConnectionLost => s.row
                        case Erred(message, permanent) =>
                          s.row.(state := if permanent || s.row.execCount > c.maxErrors then Failed else Error,
                                 error := message, errors := s.row.errors + [message], updatedAt := s.now))
  {
    RunKeepsInv(c, Fresh(now), actions);
    OnlyRunner(c, Run(c, Fresh(now), actions), w);
  }

  /** A job becomes COMPLETE exactly by the written success of the worker that has
      it, and FAILED exactly by that worker's written error, permanent or beyond the
      limit. */
  lemma TerminalIsReachedIff(c: Config, now: int, actions: seq<Action>, a: Action)
    requires c.grace > 0 && PromptRun(c, Fresh(now), actions) && !Terminal(Run(c, Fresh(now), actions).row)
    ensures var s := Run(c, Fresh(now), actions);
      var t := Apply(c, s, a);
      var written := a.Finish? && a.worker in s.running && a.write != Rejected;
      && (t.row.state == Complete <==> written && a.outcome.Succeeded?)
      && (t.row.state == Failed <==>
            written && a.outcome.Erred? && (a.outcome.permanent || s.row.execCount > c.maxErrors))
  {
    RunKeepsInv(c, Fresh(now), actions);
    CreatorHoldsInit(c, Fresh(now), actions);
  }

  /** The pool polls a job that erred, or found no executor, once the reschedule
      delay is over, and one whose worker crashed once the grace period is. */
  lemma PolledAgainIff(c: Config, now: int, actions: seq<Action>, w: nat, message: string, elapsed: nat)
    requires c.grace > 0 && PromptRun(c, Fresh(now), actions) && w in Run(c, Fresh(now), actions).running
    ensures var s := Run(c, Fresh(now), actions);
      && (s.row.execCount <= c.maxErrors ==>
            (Polls(c, Apply(c, Apply(c, s, Finish(w, Erred(message, false), Acked)), Tick(elapsed)))
             <==> elapsed > c.reschedule))
      && (Polls(c, Apply(c, Apply(c, s, NoExecutor(w, Acked)), Tick(elapsed))) <==> elapsed > c.reschedule)
      && (Polls(c, Apply(c, Apply(c, s, Crash(w)), Tick(elapsed)))
          <==> s.now + elapsed > s.running[w].since + c.grace)
  {
    RunKeepsInv(c, Fresh(now), actions);
  }

  /** A poll queues a copy of the row. */
  predicate Polls(c: Config, s: State) {
    Apply(c, s, Poll).queue == s.queue + [s.row]
  }

  lemma {:induction false} TerminalEndsReports(c: Config, s: State, actions: seq<Action>)
    requires Inv(c, s) && PromptRun(c, s, actions) && Terminal(s.row)
    ensures Run(c, s, actions).reports == s.reports
    decreases |actions|
  {
    if actions != [] {
      StepKeepsInv(c, s, actions[0]);
      assert s.running == map[];
      assert Apply(c, s, actions[0]).row == s.row;
      TerminalEndsReports(c, Apply(c, s, actions[0]), actions[1..]);
    }
  }

  /** The job is polled, taken and errs once more. */
  function Round(c: Config, s: State, write: Write): seq<Action> {
    [Tick(c.grace + c.reschedule + 1), Poll, Take(0, |s.queue|, Committed), Finish(0, Erred("", false), write)]
  }

  lemma RunOne(c: Config, s: State, a: Action, rest: seq<Action>)
    ensures Run(c, s, [a] + rest) == Run(c, Apply(c, s, a), rest)
    ensures PromptRun(c, s, [a] + rest) <==> Prompt(c, s, a) && PromptRun(c, Apply(c, s, a), rest)
  {
    assert ([a] + rest)[1..] == rest;
  }

  /** The state in which the round's executor starts. */
  function Retaken(c: Config, s: State): State {
    Apply(c, Apply(c, Apply(c, s, Tick(c.grace + c.reschedule + 1)), Poll), Take(0, |s.queue|, Committed))
  }

  lemma RoundSteps(c: Config, s: State, write: Write)
    requires s.running == map[]
    ensures Run(c, s, Round(c, s, write)) == Apply(c, Retaken(c, s), Finish(0, Erred("", false), write))
    ensures PromptRun(c, s, Round(c, s, write))
  {
    var none: seq<Action> := [];
    var tick, take, finish :=
      Tick(c.grace + c.reschedule + 1), Take(0, |s.queue|, Committed), Finish(0, Erred("", false), write);
    var s1 := Apply(c, s, tick);
    var s2 := Apply(c, s1, Poll);
    assert Round(c, s, write) == [tick] + ([Poll] + ([take] + ([finish] + none)));
    RunOne(c, s, tick, [Poll] + ([take] + ([finish] + none)));
    RunOne(c, s1, Poll, [take] + ([finish] + none));
    RunOne(c, s2, take, [finish] + none);
    RunOne(c, Retaken(c, s), finish, none);
  }

  lemma RetakenRuns(c: Config, s: State)
    requires Inv(c, s) && s.running == map[] && !Terminal(s.row)
    ensures var u := Retaken(c, s);
      && 0 in u.running && u.running - {0} == map[]
          && u.row.execCount == u.running[0].copy.execCount == s.row.execCount + 1
      && u.row.state == Accepted && u.reports == s.reports && u.lateLosses == s.lateLosses
  {
    var s2 := Apply(c, Apply(c, s, Tick(c.grace + c.reschedule + 1)), Poll);
    assert s2.queue == s.queue + [s.row];
  }

  lemma RoundReports(c: Config, s: State, write: Write)
    requires Inv(c, s) && s.running == map[] && !Terminal(s.row)
    ensures var t := Run(c, s, Round(c, s, write));
      var late := s.row.execCount + 1 > c.maxErrors;
      && PromptRun(c, s, Round(c, s, write)) && Inv(c, t) && t.running == map[] && t.reports == s.reports + 1
      && (Terminal(t.row) <==> write != Rejected && late) && t.row.execCount == s.row.execCount + 1
      && t.lateLosses == s.lateLosses + if write == Rejected && late then 1 else 0
  {
    RoundSteps(c, s, write);
    RetakenRuns(c, s);
    RunKeepsInv(c, s, Round(c, s, write));
  }

  /** Whatever the configuration: once maxErrors errors were reported, one more can
      be followed by yet another if and only if its update was refused. */
  lemma LimitCanBeExceededIff(c: Config, now: int, actions: seq<Action>, w: nat, message: string, permanent: bool,
      write: Write)
    requires c.grace > 0 && PromptRun(c, Fresh(now), actions)
    requires var s := Run(c, Fresh(now), actions); w in s.running && s.reports == c.maxErrors
    ensures var t := Apply(c, Run(c, Fresh(now), actions), Finish(w, Erred(message, permanent), write));
      (exists more :: PromptRun(c, t, more) && Run(c, t, more).reports > c.maxErrors + 1) <==> write == Rejected
  {
    RunKeepsInv(c, Fresh(now), actions);
    var s := Run(c, Fresh(now), actions);
    var t := Apply(c, s, Finish(w, Erred(message, permanent), write));
    StepKeepsInv(c, s, Finish(w, Erred(message, permanent), write));
    ReportIsTerminalIff(c, now, actions, w, message, permanent, write);
    OnlyRunner(c, s, w);
    if write == Rejected {
      RoundReports(c, t, Acked);
    } else {
      forall more | PromptRun(c, t, more) ensures Run(c, t, more).reports == t.reports {
        TerminalEndsReports(c, t, more);
      }
    }
  }

  lemma {:induction false} RunConcat(c: Config, s: State, a: seq<Action>, b: seq<Action>)
    ensures Run(c, s, a + b) == Run(c, Run(c, s, a), b)
    ensures PromptRun(c, s, a + b) <==> PromptRun(c, s, a) && PromptRun(c, Run(c, s, a), b)
    decreases |a|
  {
    if a == [] {
      assert a + b == b;
    } else {
      assert (a + b)[1..] == a[1..] + b;
      RunConcat(c, Apply(c, s, a[0]), a[1..], b);
    }
  }

  /** A job that errs k times within its limit. */
  lemma {:induction false} ErrsRepeatedly(c: Config, now: int, k: nat) returns (actions: seq<Action>)
    requires c.grace > 0 && k <= c.maxErrors
    ensures PromptRun(c, Fresh(now), actions)
    ensures var s := Run(c, Fresh(now), actions);
      Inv(c, s) && s.running == map[] && !Terminal(s.row) && s.reports == k == s.row.execCount && s.lateLosses == 0
    decreases k
  {
    if k == 0 {
      actions := [];
    } else {
      var before := ErrsRepeatedly(c, now, k - 1);
      var s := Run(c, Fresh(now), before);
      RoundReports(c, s, Acked);
      RunConcat(c, Fresh(now), before, Round(c, s, Acked));
      actions := before + Round(c, s, Acked);
    }
  }

  /** So the plain limit is exceeded under every configuration by some run, one
      lost late update being enough. */
  lemma EveryLimitCanBeExceeded(c: Config, now: int) returns (actions: seq<Action>)
    requires c.grace > 0
    ensures PromptRun(c, Fresh(now), actions)
    ensures var s := Run(c, Fresh(now), actions); s.reports == c.maxErrors + 2 && s.lateLosses == 1
  {
    var before := ErrsRepeatedly(c, now, c.maxErrors);
    var s := Run(c, Fresh(now), before);
    RoundReports(c, s, Rejected);
    var t := Run(c, s, Round(c, s, Rejected));
    RoundReports(c, t, Acked);
    RunConcat(c, Fresh(now), before, Round(c, s, Rejected));
    RunConcat(c, Fresh(now), before + Round(c, s, Rejected), Round(c, t, Acked));
    actions := before + Round(c, s, Rejected) + Round(c, t, Acked);
  }

  /** The executor reports at most maxErrors + 1 errors of the job, plus one for
      every later report whose row update was lost. */
  lemma ErrorsAreBounded(c: Config, now: int, actions: seq<Action>)
    requires c.grace > 0 && PromptRun(c, Fresh(now), actions)
    ensures var s := Run(c, Fresh(now), actions); s.reports <= c.maxErrors + 1 + s.lateLosses
  {
    RunKeepsInv(c, Fresh(now), actions);
  }

  // ---- Why each assumption is there ----

  const NO_RETRIES := Config(10, 1, 0)

  const LOST_ERROR := [Schedule(false, true, Acked), Take(0, 0, Committed), Finish(0, Erred("e", false), Rejected)]
  const NEXT_ERROR := [Tick(11), Poll, Take(0, 0, Committed), Finish(0, Erred("e", false), Acked)]

  /** With a lost update after the budget, the bound without its last term fails:
      with no retries allowed, the executor still errs twice. */
  lemma LostUpdateExceedsTheBudget()
    ensures PromptRun(NO_RETRIES, Fresh(0), LOST_ERROR + NEXT_ERROR)
    ensures Run(NO_RETRIES, Fresh(0), LOST_ERROR + NEXT_ERROR).reports == 2 > NO_RETRIES.maxErrors + 1
  {
    RunConcat(NO_RETRIES, Fresh(0), LOST_ERROR, NEXT_ERROR);
    assert Run(NO_RETRIES, Fresh(0), LOST_ERROR) == State(Job(Accepted, 1, 0, "", []), 0, [], map[], None, 1, 1);
  }

  function CompletedMeanwhile(): seq<Action> {
    [Tick(11), Poll, Take(0, 0, Committed), Finish(0, Succeeded, Acked)]
  }

  /** A creator that calls Schedule only after the grace period, when the queue is
      full, overwrites whatever became of the job meanwhile. */
  lemma LateScheduleReopensACompleteJob()
    ensures var s := Run(NO_RETRIES, Fresh(0), CompletedMeanwhile());
      s.row.state == Complete && Apply(NO_RETRIES, s, Schedule(false, false, Acked)).row.state == NoAvailableWorkers
  {
  }

  function LostCommit(): seq<Action> {
    [Schedule(false, true, Acked), Tick(11), Poll, Take(0, 0, LostSilently), Take(1, 0, Committed)]
  }

  /** A commit that fails without AcceptJob noticing lets two executions overlap,
      both within their grace period. */
  lemma SilentCommitFailureOverlaps()
    ensures var s := Run(NO_RETRIES, Fresh(0), LostCommit());
      0 in s.running && 1 in s.running && s.now < s.running[0].since + 10 && s.now < s.running[1].since + 10
  {
  }

  const THREE_ERRORS := Config(10, 5, 3)

  function TakenTwice(): seq<Action> {
    [Tick(11), Poll, Poll, Take(0, 0, Committed)]
  }

  /** The same late Schedule under a running worker: both executions are within
      their grace period and every commit has happened. */
  lemma LateScheduleOverlaps()
    ensures var s := Run(THREE_ERRORS, Fresh(0), TakenTwice());
      var t := Apply(THREE_ERRORS, Apply(THREE_ERRORS, s, Schedule(false, false, Acked)), Take(1, 0, Committed));
      && PromptRun(THREE_ERRORS, Fresh(0), TakenTwice())
      && 0 in t.running && 1 in t.running && t.now < t.running[0].since + 10 && t.now < t.running[1].since + 10
  {
  }

  /** A job polled twice that errs once: the second copy, accepted without waiting
      for the reschedule delay, writes the empty log back. */
  lemma StaleCopyErasesTheErrors()
    ensures var u := Run(THREE_ERRORS, Fresh(0), TakenTwice());
      var s := Apply(THREE_ERRORS, u, Finish(0, Erred("e", false), Acked));
      var t := Apply(THREE_ERRORS, s, Take(0, 0, Committed));
      && s.row.errors == ["e"] && !Schedulable(s.row, s.now, THREE_ERRORS)
      && t.row.errors == [] && t.reports == 1 && 0 in t.running
  {
  }

  // ---- The store and the worker as they are written ----

  class JobTable {
    var row: Job
    var now: int
    const grace: nat

    constructor (row: Job, now: int, grace: nat)
      ensures this.row == row && this.now == now && this.grace == grace
    {
      this.row, this.now, this.grace := row, now, grace;
    }

    /** UpdateJob saves every column of the given copy. */
    method UpdateJob(copy: Job, write: Write)
      modifies this`row
      ensures row == Saved(old(row), copy, write, now)
    {
      if write != Rejected { row := copy.(updatedAt := now); }
    }

    /** AcceptJob: the copy is tested before, the locked row inside, the
        transaction; the counter comes from the row, all else from the copy. */
    method AcceptJob(copy: Job, commit: Commit) returns (mine: Option<Job>)
      modifies this`row
      ensures mine.Some? <==> Acceptable(copy, now, grace) && Acceptable(old(row), now, grace) && commit != Refused
      ensures mine.Some? ==> mine.value == AcceptedCopy(copy, old(row), now)
      ensures row == if mine.Some? && commit == Committed then mine.value else old(row)
    {
      if !Acceptable(copy, now, grace) { return None; }
      var job := row;
      if !Acceptable(job, now, grace) || commit == Refused { return None; }
      var updated := copy.(state := Accepted, execCount := job.execCount + 1, updatedAt := now);
      if commit == Committed { row := updated; }
      mine := Some(updated);
    }

    /** process, for a worker whose executor, if registered, takes `elapsed` to end with
        `outcome`: accept, execute, update. Its effect is that of the two steps. */
    method Process(
      c: Config, worker: nat, copy: Job, commit: Commit, registered: bool, elapsed: nat, outcome: Outcome,
      write: Write, ghost s: State)
      returns (accepted: bool)
      requires c.grace == grace && s.row == row && s.now == now && worker !in s.running && s.queue != []
        && s.queue[0] == copy
      modifies this
      ensures var t := Apply(c, s, Take(worker, 0, commit));
        && (accepted <==> worker in t.running)
        && var end := if registered then Finish(worker, outcome, write) else NoExecutor(worker, write);
           row == Apply(c, t.(now := now), end).row
    {
      var mine := AcceptJob(copy, commit);
      if mine.None? { return false; }
      accepted := true;
      var job := mine.value;
      if !registered {
        UpdateJob(job.(state := NoAvailableWorkers), write);
        return;
      }
      now := now + elapsed;
      match outcome
      case ConnectionLost =>
      case Succeeded =>
        job := job.(state := Complete, error := "");
        UpdateJob(job, write);
      case Erred(message, permanent) =>
        job := job.(state := if job.execCount > c.maxErrors || permanent then Failed else Error,
                    error := message, errors := job.errors + [message]);
        UpdateJob(job, write);
    }
  }
}
