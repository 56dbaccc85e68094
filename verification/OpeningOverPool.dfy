/** OpenEscrow over the worker pool's own jobs: what a FAILED job must stay for
    the opening to be safe is what the pool guarantees of a prompt run. */
module OpeningOverPool {
  import O = EscrowOpening
  import P = JobPool

  /** The pool of every submitted job beside the opening that watches them. */
  datatype World = World(opening: O.System, pools: map<nat, P.State>)

  datatype Action =
    | Operate(action: O.Action)
    | Work(job: nat, step: P.Action)

  /** A job's state as the opening reads it from the pool's row. */
  function Read(row: P.Job): O.JobState {
    match row.state
    case Complete => O.Completed
    case Failed => O.FailedForGood
    case _ => O.Live
  }

  /** Jobs end in the pool and nowhere else; a submitted job gets a fresh row. */
  function Apply(c: P.Config, w: World, a: Action, now: int): World {
    match a
    case Operate(EndJob(_, _)) => w
    case Operate(action) =>
      var opening := O.Apply(w.opening, action);
      World(opening, map j | j in opening.jobs :: if j in w.pools then w.pools[j] else P.Fresh(now))
    case Work(job, step) =>
      if job !in w.pools then w
      else
        var pool := P.Apply(c, w.pools[job], step);
        World(w.opening.(jobs := w.opening.jobs[job := Read(pool.row)]), w.pools[job := pool])
  }

  /** The pool's own condition, job by job. */
  ghost predicate Prompt(c: P.Config, w: World, a: Action) {
    a.Work? && a.job in w.pools ==> P.Prompt(c, w.pools[a.job], a.step)
  }

  function Run(c: P.Config, w: World, actions: seq<(Action, int)>): World
    decreases |actions|
  {
    if actions == [] then w else Run(c, Apply(c, w, actions[0].0, actions[0].1), actions[1..])
  }

  ghost predicate PromptRun(c: P.Config, w: World, actions: seq<(Action, int)>)
    decreases |actions|
  {
    actions == []
    || (Prompt(c, w, actions[0].0) && PromptRun(c, Apply(c, w, actions[0].0, actions[0].1), actions[1..]))
  }

  ghost predicate Inv(c: P.Config, w: World) {
    && c.grace > 0 && O.Inv(w.opening) && w.pools.Keys == w.opening.jobs.Keys
    && forall j :: j in w.pools ==> P.Inv(c, w.pools[j]) && w.opening.jobs[j] == Read(w.pools[j].row)
  }

  /** No operator has acted; a charge may have submitted jobs, each still fresh. */
  ghost predicate Starts(w: World) {
    && O.Initial(w.opening) && w.pools.Keys == w.opening.jobs.Keys
    && forall j :: j in w.pools ==> w.opening.jobs[j] == O.Live && exists t :: w.pools[j] == P.Fresh(t)
  }

  /** In a prompt step of the pool a job ends at most once and for good. */
  lemma JobsEndOnce(c: P.Config, s: P.State, a: P.Action)
    requires P.Inv(c, s) && P.Prompt(c, s, a)
    ensures P.Inv(c, P.Apply(c, s, a))
    ensures Read(P.Apply(c, s, a).row) == Read(s.row) || Read(s.row) == O.Live
  {
    P.StepKeepsInv(c, s, a);
  }

  lemma EndingKeepsOpening(s: O.System, job: nat, after: O.JobState)
    requires O.Inv(s) && job in s.jobs && (after == s.jobs[job] || s.jobs[job] == O.Live)
    ensures O.Inv(s.(jobs := s.jobs[job := after]))
  {
    if after == s.jobs[job] {
      assert s.jobs[job := after] == s.jobs;
    } else if after != O.Live {
      O.StepKeepsInv(s, O.EndJob(job, after == O.Completed));
    }
  }

  lemma ReplacingKeepsInv(c: P.Config, w: World, job: nat, pool: P.State)
    requires Inv(c, w) && job in w.pools && P.Inv(c, pool)
    requires O.Inv(w.opening.(jobs := w.opening.jobs[job := Read(pool.row)]))
    ensures Inv(c, World(w.opening.(jobs := w.opening.jobs[job := Read(pool.row)]), w.pools[job := pool]))
  {
  }

  lemma WorkKeepsInv(c: P.Config, w: World, job: nat, step: P.Action)
    requires Inv(c, w) && job in w.pools && P.Prompt(c, w.pools[job], step)
    ensures Inv(c, Apply(c, w, Work(job, step), 0))
  {
    var pool := P.Apply(c, w.pools[job], step);
    JobsEndOnce(c, w.pools[job], step);
    EndingKeepsOpening(w.opening, job, Read(pool.row));
    ReplacingKeepsInv(c, w, job, pool);
  }

  lemma StepKeepsInv(c: P.Config, w: World, a: Action, now: int)
    requires Inv(c, w) && Prompt(c, w, a)
    ensures Inv(c, Apply(c, w, a, now))
  {
    match a
    case Work(job, step) => if job in w.pools { WorkKeepsInv(c, w, job, step); }
    case Operate(action) => if !action.EndJob? { OperateKeepsInv(c, w, action, now); }
  }

  lemma OperateKeepsInv(c: P.Config, w: World, action: O.Action, now: int)
    requires Inv(c, w) && !action.EndJob?
    ensures Inv(c, Apply(c, w, Operate(action), now))
  {
    O.StepKeepsInv(w.opening, action);
    JobsOnlyAdded(w.opening, action);
    FreshIsInOrder(c, now);
  }

  lemma FreshIsInOrder(c: P.Config, now: int)
    requires c.grace > 0
    ensures P.Inv(c, P.Fresh(now)) && Read(P.Fresh(now).row) == O.Live
  {
  }

  lemma JobsOnlyAdded(s: O.System, a: O.Action)
    requires !a.EndJob?
    ensures var t := O.Apply(s, a);
      && (forall j :: j in s.jobs ==> j in t.jobs && t.jobs[j] == s.jobs[j])
      && (forall j :: j in t.jobs && j !in s.jobs ==> t.jobs[j] == O.Live)
  {
  }

  lemma {:induction false} RunKeepsInv(c: P.Config, w: World, actions: seq<(Action, int)>)
    requires Inv(c, w) && PromptRun(c, w, actions)
    ensures Inv(c, Run(c, w, actions))
    decreases |actions|
  {
    if actions != [] {
      StepKeepsInv(c, w, actions[0].0, actions[0].1);
      RunKeepsInv(c, Apply(c, w, actions[0].0, actions[0].1), actions[1..]);
    }
  }

  /** With any number of operators and any number of workers on every job, in a run
      that is prompt in the pool's sense: of all escrow jobs ever submitted at
      most one has a row that is not FAILED. */
  lemma AtMostOneJobMaySucceed(c: P.Config, w0: World, actions: seq<(Action, int)>, i: nat, j: nat)
    requires c.grace > 0 && Starts(w0)
    requires PromptRun(c, w0, actions)
    requires var w := Run(c, w0, actions);
      && i in w.pools && w.pools[i].row.state != P.Failed
      && j in w.pools && w.pools[j].row.state != P.Failed
    ensures i == j
  {
    RunKeepsInv(c, w0, actions);
    var w := Run(c, w0, actions);
    assert O.MaySeal(w.opening, i) && O.MaySeal(w.opening, j);
    SealsAreOne(w.opening, i, j);
  }

  lemma SealsAreOne(s: O.System, i: nat, j: nat)
    requires O.Inv(s) && O.MaySeal(s, i) && O.MaySeal(s, j)
    ensures i == j
  {
  }

  /** Why the pool's condition is needed: by one step, a late overflowing Schedule,
      a job that had FAILED and been released may run again beside its successor.
      Exactly such a step brings a FAILED job back. */
  lemma FailedJobReturnsIff(c: P.Config, now: int, work: seq<P.Action>, a: P.Action)
    requires c.grace > 0 && P.PromptRun(c, P.Fresh(now), work)
    requires Read(P.Run(c, P.Fresh(now), work).row) == O.FailedForGood
    ensures var s := P.Run(c, P.Fresh(now), work);
      Read(P.Apply(c, s, a).row) == O.Live <==> P.Overflows(s, a)
  {
    P.TerminalIsLeftIff(c, now, work, a);
    P.CreatorHoldsInit(c, P.Fresh(now), work);
  }
}
