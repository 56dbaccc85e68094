/** OpenEscrow: concurrent operators claiming one paid purchase, submitting the
    escrow job and releasing claims whose job terminally failed. */
module EscrowOpening {
  import opened Common
  import opened PurchaseTypes

  /** A job ends once; a FAILED job reverted and created nothing on chain. */
  datatype JobState = Live | Completed | FailedForGood

  datatype OpenInput = OpenInput(chipId: string, nonce: nat, key: string)

  datatype Result =
    | Opened(columns: EscrowColumns)
    | NotOpenable
    | Unavailable

  datatype Pc =
    | AtRead
    | AtJobCheck
    | AtReset
    | AtChip
    | AtClaim
    | AtSubmit
    | AtSetJob(job: nat)
    | Finished(result: Result)

  datatype Operator = Operator(input: OpenInput, read: EscrowColumns, pc: Pc)

  /** `claimant` records who made the current claim; the code does not store it. */
  datatype System = System(row: EscrowColumns, jobs: map<nat, JobState>, operators: map<nat, Operator>,
    claimant: Option<nat>)

  // ---- The conditional updates ----

  function Claimed(row: EscrowColumns, input: OpenInput): Option<EscrowColumns> {
    if row.status == PaidPendingEscrow && row.jobId.None?
    then Some(EscrowColumns(EscrowOpening, row.jobId, input.chipId, input.nonce, input.key)) else None
  }

  function WithJob(row: EscrowColumns, job: nat): EscrowColumns {
    if row.status == EscrowOpening then row.(jobId := Some(job)) else row
  }

  function Unclaimed(row: EscrowColumns): EscrowColumns {
    if row.status == EscrowOpening && row.jobId.None? then row.(status := PaidPendingEscrow, openKey := "") else row
  }

  function ReleasedAfter(row: EscrowColumns, failedJob: nat): Option<EscrowColumns> {
    if row.status == EscrowOpening && row.jobId == Some(failedJob)
    then Some(row.(status := PaidPendingEscrow, jobId := None, openKey := "")) else None
  }

  // ---- Steps ----

  datatype Submission =
    | JobReturned(job: nat)       // accepted, the job comes back
    | AcceptedSilently(job: nat)  // accepted, but an error or no job comes back
    | NotAccepted

  /** Reading a job's state: answered, failed, or no reader is configured. */
  datatype JobRead = Told | ReadFails | NoReader

  datatype Action =
    | Begin(op: nat, input: OpenInput)
    | Read(op: nat, ok: bool)
    | CheckJob(op: nat, answer: JobRead)
    | Reset(op: nat, write: Write)
    | CheckChip(op: nat, ok: bool)
    | Claim(op: nat, write: Write)
    | Unclaim(op: nat, write: Write)
    | Submit(op: nat, outcome: Submission)
    | SetJob(op: nat, write: Write)
    | EndJob(job: nat, completed: bool)

  predicate At(s: System, op: nat, pc: Pc) {
    op in s.operators && s.operators[op].pc == pc
  }

  function Goto(s: System, op: nat, pc: Pc): System
    requires op in s.operators
  {
    s.(operators := s.operators[op := s.operators[op].(pc := pc)])
  }

  function AfterRead(row: EscrowColumns, input: OpenInput): Pc {
    if row.status == EscrowOpening && row.openKey == input.key && row.jobId.Some? then Finished(Opened(row))
    else if row.status == PaidPendingEscrow && row.jobId.None? then AtChip
    else if row.status == EscrowOpening && row.jobId.Some? then AtJobCheck
    else Finished(NotOpenable)
  }

  function ApplyRead(s: System, op: nat, ok: bool): System {
    if !At(s, op, AtRead) then s
    else if !ok then Goto(s, op, Finished(Unavailable))
    else s.(operators := s.operators[op :=
        s.operators[op].(read := s.row, pc := AfterRead(s.row, s.operators[op].input))])
  }

  function ApplyCheckJob(s: System, op: nat, answer: JobRead): System {
    if !At(s, op, AtJobCheck) then s
    else if answer == NoReader then Goto(s, op, Finished(NotOpenable))
    else
      var job := s.operators[op].read.jobId;
      if answer == ReadFails || job.None? || job.value !in s.jobs then Goto(s, op, Finished(Unavailable))
      else if s.jobs[job.value] != FailedForGood then Goto(s, op, Finished(NotOpenable))
      else Goto(s, op, AtReset)
  }

  function ApplyReset(s: System, op: nat, write: Write): System {
    if !At(s, op, AtReset) || s.operators[op].read.jobId.None? then s
    else if write == Rejected then Goto(s, op, Finished(Unavailable))
    else
      var released := ReleasedAfter(s.row, s.operators[op].read.jobId.value);
      var t := if released.Some? then s.(row := released.value, claimant := None) else s;
      Goto(t, op, if write == Unacked then Finished(Unavailable) else if released.Some? then AtChip
        else Finished(NotOpenable))
  }

  function ApplyClaim(s: System, op: nat, write: Write): System {
    if !At(s, op, AtClaim) then s
    else if write == Rejected then Goto(s, op, Finished(Unavailable))
    else
      var claimed := Claimed(s.row, s.operators[op].input);
      var t := if claimed.Some? then s.(row := claimed.value, claimant := Some(op)) else s;
      Goto(t, op, if write == Unacked then Finished(Unavailable) else if claimed.Some? then AtSubmit
        else Finished(NotOpenable))
  }

  /** The escrow creator is not configured: the operator drops its own claim. */
  function ApplyUnclaim(s: System, op: nat, write: Write): System {
    if !At(s, op, AtSubmit) then s
    else
      var row := if write == Rejected then s.row else Unclaimed(s.row);
      Goto(s.(row := row, claimant := if row == s.row then s.claimant else None), op, Finished(Unavailable))
  }

  function ApplySubmit(s: System, op: nat, outcome: Submission): System {
    if !At(s, op, AtSubmit) then s
    else
      match outcome
      case NotAccepted => Goto(s, op, Finished(Unavailable))
      case JobReturned(job) => if job in s.jobs then s else Goto(s.(jobs := s.jobs[job := Live]), op, AtSetJob(job))
      case AcceptedSilently(job) => if job in s.jobs then s
          else Goto(s.(jobs := s.jobs[job := Live]), op, Finished(Unavailable))
  }

  function ApplySetJob(s: System, op: nat, write: Write): System {
    if !(op in s.operators && s.operators[op].pc.AtSetJob?) then s
    else
      var o := s.operators[op];
      var t := if write == Rejected then s else s.(row := WithJob(s.row, o.pc.job));
      Goto(t, op, if write == Acked
                  then Finished(Opened(
                    EscrowColumns(EscrowOpening, Some(o.pc.job), o.input.chipId, o.input.nonce, o.read.openKey)))
                  else Finished(Unavailable))
  }

  function Apply(s: System, a: Action): System {
    match a
    case Begin(op, input) =>
      if op in s.operators then s
      else s.(operators := s.operators[op := Operator(input, s.row, AtRead)])
    case Read(op, ok) => ApplyRead(s, op, ok)
    case CheckJob(op, answer) => ApplyCheckJob(s, op, answer)
    case Reset(op, write) => ApplyReset(s, op, write)
    case CheckChip(op, ok) => if !At(s, op, AtChip) then s
        else Goto(s, op, if ok then AtClaim else Finished(Unavailable))
    case Claim(op, write) => ApplyClaim(s, op, write)
    case Unclaim(op, write) => ApplyUnclaim(s, op, write)
    case Submit(op, outcome) => ApplySubmit(s, op, outcome)
    case SetJob(op, write) => ApplySetJob(s, op, write)
    case EndJob(job, completed) =>
      if job in s.jobs && s.jobs[job] == Live
      then s.(jobs := s.jobs[job := if completed then Completed else FailedForGood])
      else s
  }

  function Run(s: System, actions: seq<Action>): System
    decreases |actions|
  {
    if actions == [] then s else Run(Apply(s, actions[0]), actions[1..])
  }

  // ---- Invariant ----

  ghost predicate MaySeal(s: System, job: nat) {
    job in s.jobs && s.jobs[job] != FailedForGood
  }

  /** The row accounts for every job that may still create an escrow. */
  ghost predicate Accounted(s: System) {
    match s.row.status
    case PaidPendingEscrow => s.row.jobId.None? && forall j :: j in s.jobs ==> !MaySeal(s, j)
    case EscrowOpening =>
      if s.row.jobId.Some?
      then s.row.jobId.value in s.jobs && forall j :: j in s.jobs && MaySeal(s, j) ==> Some(j) == s.row.jobId
      else forall i, j :: i in s.jobs && j in s.jobs && MaySeal(s, i) && MaySeal(s, j) ==> i == j
  }

  predicate Holding(pc: Pc) {
    pc.AtSubmit? || pc.AtSetJob?
  }

  ghost predicate OperatorOk(s: System, op: nat)
    requires op in s.operators
  {
    var o := s.operators[op];
    && (Holding(o.pc) ==> s.row.status == EscrowOpening && s.row.jobId.None? && s.claimant == Some(op))
    && (o.pc.AtSubmit? ==> forall j :: j in s.jobs ==> !MaySeal(s, j))
    && (o.pc.AtSetJob? ==> o.pc.job in s.jobs && forall j :: j in s.jobs && MaySeal(s, j) ==> j == o.pc.job)
    && (o.pc.AtReset? ==>
        o.read.jobId.Some? && o.read.jobId.value in s.jobs && s.jobs[o.read.jobId.value] == FailedForGood)
  }

  ghost predicate Inv(s: System) {
    Accounted(s) && forall op :: op in s.operators ==> OperatorOk(s, op)
  }

  /** Before any operator acts: unopened, opened with its job, or opened by a
      charge whose submission returned no job. */
  ghost predicate Initial(s: System) {
    s.operators == map[] && Accounted(s) && s.claimant.None?
  }

  /** Steps that may rewrite the row or add a job. */
  predicate Writes(a: Action) {
    a.Reset? || a.Claim? || a.Unclaim? || a.Submit? || a.SetJob?
  }

  lemma WriteKeepsAccounts(s: System, a: Action)
    requires Inv(s) && Writes(a)
    ensures Accounted(Apply(s, a))
  {
    if a.op in s.operators { assert OperatorOk(s, a.op); }
  }

  lemma WriteKeepsOperator(s: System, a: Action, op: nat)
    requires Inv(s) && Writes(a) && op in s.operators
    ensures OperatorOk(Apply(s, a), op)
  {
    assert OperatorOk(s, op);
    if a.op in s.operators { assert OperatorOk(s, a.op); }
  }

  lemma QuietKeepsInv(s: System, a: Action)
    requires Inv(s) && !Writes(a)
    ensures Inv(Apply(s, a))
  {
    var t := Apply(s, a);
    forall op | op in t.operators ensures OperatorOk(t, op) {
      if op in s.operators { assert OperatorOk(s, op); }
    }
  }

  lemma StepKeepsInv(s: System, a: Action)
    requires Inv(s)
    ensures Inv(Apply(s, a))
  {
    if Writes(a) {
      WriteKeepsAccounts(s, a);
      forall op | op in s.operators ensures OperatorOk(Apply(s, a), op) { WriteKeepsOperator(s, a, op); }
    } else {
      QuietKeepsInv(s, a);
    }
  }

  lemma {:induction false} RunKeepsInv(s: System, actions: seq<Action>)
    requires Inv(s)
    ensures Inv(Run(s, actions))
    decreases |actions|
  {
    if actions != [] {
      StepKeepsInv(s, actions[0]);
      RunKeepsInv(Apply(s, actions[0]), actions[1..]);
    }
  }

  // ---- Theorems ----

  /** At any time at most one submitted job is not FAILED; so, a completed job
      never becoming anything else, at most one escrow is ever created. */
  lemma AtMostOneLiveSubmission(s0: System, actions: seq<Action>, i: nat, j: nat)
    requires Initial(s0)
    requires var s := Run(s0, actions); MaySeal(s, i) && MaySeal(s, j)
    ensures i == j
  {
    RunKeepsInv(s0, actions);
  }

  /** A reset, however stale the read behind it, clears a claim only if the row
      still names the very job that failed. */
  lemma ResetOnlyClearsItsFailedJob(s0: System, actions: seq<Action>, op: nat, write: Write)
    requires Initial(s0)
    ensures var s := Run(s0, actions);
      var t := Apply(s, Reset(op, write));
      t.row != s.row ==>
        && op in s.operators && s.row.status == EscrowOpening
        && s.row.jobId.Some? && s.row.jobId == s.operators[op].read.jobId
        && s.row.jobId.value in s.jobs && s.jobs[s.row.jobId.value] == FailedForGood
        && t.row.status == PaidPendingEscrow && t.row.jobId.None?
  {
    RunKeepsInv(s0, actions);
    var s := Run(s0, actions);
    if op in s.operators { assert OperatorOk(s, op); }
  }

  /** A claim that names no job may have a submission in flight: nobody but the
      operator who made it ever changes it. */
  lemma EmptyClaimBelongsToItsClaimant(s0: System, actions: seq<Action>, a: Action)
    requires Initial(s0)
    requires var s := Run(s0, actions); s.row.status == EscrowOpening && s.row.jobId.None?
    requires var s := Run(s0, actions); Apply(s, a).row != s.row
    ensures !a.EndJob? && Run(s0, actions).claimant == Some(a.op)
  {
    RunKeepsInv(s0, actions);
    var s := Run(s0, actions);
    if !a.EndJob? && a.op in s.operators { assert OperatorOk(s, a.op); }
  }

  // ---- One operator undisturbed ----

  /** The database and service outcomes one OpenEscrow call meets. */
  datatype Outcomes = Outcomes(
    read: bool, jobRead: JobRead, reset: Write, chip: bool, claim: Write,
    configured: bool, unclaim: Write, submission: Submission, setJob: Write)

  function Script(op: nat, input: OpenInput, o: Outcomes): seq<Action> {
    [Begin(op, input), Read(op, o.read), CheckJob(op, o.jobRead), Reset(op, o.reset), CheckChip(op, o.chip),
     Claim(op, o.claim), if o.configured then Submit(op, o.submission) else Unclaim(op, o.unclaim),
     SetJob(op, o.setJob)]
  }

  function AllWell(job: nat): Outcomes {
    Outcomes(true, Told, Acked, true, Acked, true, Acked, JobReturned(job), Acked)
  }

  lemma RunUnfold(s: System, a: Action, rest: seq<Action>)
    ensures Run(s, [a] + rest) == Run(Apply(s, a), rest)
  {
    assert ([a] + rest)[1..] == rest;
  }

  /** The first half of the script: read the purchase, release a dead claim. */
  function ReadSteps(s: System, op: nat, input: OpenInput, o: Outcomes): System {
    Apply(Apply(Apply(Apply(s, Begin(op, input)), Read(op, o.read)), CheckJob(op, o.jobRead)), Reset(op, o.reset))
  }

  /** The second half: check the chip, claim, submit and record the job. */
  function ClaimSteps(s: System, op: nat, o: Outcomes): System {
    var s2 := Apply(Apply(s, CheckChip(op, o.chip)), Claim(op, o.claim));
    Apply(Apply(s2, if o.configured then Submit(op, o.submission) else Unclaim(op, o.unclaim)), SetJob(op, o.setJob))
  }

  lemma ScriptSteps(s: System, op: nat, input: OpenInput, o: Outcomes)
    ensures Run(s, Script(op, input, o)) == ClaimSteps(ReadSteps(s, op, input, o), op, o)
  {
    var a := Script(op, input, o);
    var s1 := Apply(s, a[0]);
    var s2 := Apply(s1, a[1]);
    var s3 := Apply(s2, a[2]);
    var s4 := Apply(s3, a[3]);
    RunUnfold(s, a[0], a[1..]); RunUnfold(s1, a[1], a[2..]); RunUnfold(s2, a[2], a[3..]); RunUnfold(s3, a[3], a[4..]);
    var s5 := Apply(s4, a[4]);
    var s6 := Apply(s5, a[5]);
    var s7 := Apply(s6, a[6]);
    RunUnfold(s4, a[4], a[5..]); RunUnfold(s5, a[5], a[6..]); RunUnfold(s6, a[6], a[7..]); RunUnfold(s7, a[7], a[8..]);
    assert a == [a[0]] + a[1..] && a[1..] == [a[1]] + a[2..] && a[2..] == [a[2]] + a[3..] && a[3..] == [a[3]] + a[4..];
    assert a[4..] == [a[4]] + a[5..] && a[5..] == [a[5]] + a[6..] && a[6..] == [a[6]] + a[7..]
      && a[7..] == [a[7]] + a[8..];
    assert a[8..] == [];
  }

  /** The claim, chip, nonce and key of `input` are in the row with a new live job. */
  ghost predicate IsOpenedBy(t: System, s: System, input: OpenInput, job: nat) {
    && t.row == EscrowColumns(EscrowOpening, Some(job), input.chipId, input.nonce, input.key)
    && t.jobs == s.jobs[job := Live]
  }

  /** The purchase as a released claim leaves it. */
  function Free(row: EscrowColumns): EscrowColumns {
    row.(status := PaidPendingEscrow, jobId := None, openKey := "")
  }

  /** The call repeats the key of an opening that has its job. */
  predicate Repeated(s: System, input: OpenInput) {
    s.row.status == EscrowOpening && s.row.openKey == input.key && s.row.jobId.Some?
  }

  /** An undisturbed operator opens the escrow exactly when the purchase is
      unopened or its job has terminally failed; a fresh job is then recorded.
      Otherwise the row stays as it is. */
  lemma OpenableExactlyWhenUnclaimedOrFailed(s0: System, actions: seq<Action>, op: nat, input: OpenInput, job: nat)
    requires Initial(s0)
    requires var s := Run(s0, actions); op !in s.operators && job !in s.jobs
    ensures var s := Run(s0, actions);
      var t := Run(s, Script(op, input, AllWell(job)));
      var openable := !Repeated(s, input)
        && (s.row.status == PaidPendingEscrow || (s.row.jobId.Some? && !MaySeal(s, s.row.jobId.value)));
      if openable then IsOpenedBy(t, s, input, job) else t.row == s.row && t.jobs == s.jobs
  {
    RunKeepsInv(s0, actions);
    var s := Run(s0, actions);
    ScriptSteps(s, op, input, AllWell(job));
    ReadOutcome(s, op, input, AllWell(job));
    ClaimOutcome(ReadSteps(s, op, input, AllWell(job)), op, input, job);
  }

  lemma ReadOutcome(s: System, op: nat, input: OpenInput, o: Outcomes)
    requires Inv(s) && op !in s.operators && o.read && o.jobRead == Told && o.reset == Acked
    ensures var t := ReadSteps(s, op, input, o);
      && op in t.operators && t.operators[op].input == input && t.jobs == s.jobs
      && (if !Repeated(s, input) && s.row.status == PaidPendingEscrow then
            t.operators[op].pc == AtChip && t.row == s.row
          else if !Repeated(s, input) && s.row.jobId.Some? && !MaySeal(s, s.row.jobId.value) then
            t.operators[op].pc == AtChip && t.row == Free(s.row)
          else t.operators[op].pc.Finished? && t.row == s.row)
  {
  }

  lemma ClaimOutcome(s: System, op: nat, input: OpenInput, job: nat)
    requires op in s.operators && s.operators[op].input == input && job !in s.jobs
    requires s.operators[op].pc.Finished?
      || (s.operators[op].pc == AtChip && s.row.status == PaidPendingEscrow && s.row.jobId.None?)
    ensures var t := ClaimSteps(s, op, AllWell(job));
      if s.operators[op].pc.Finished? then t == s else IsOpenedBy(t, s, input, job)
  {
  }

  // ---- The outcome of one call, written out ----

  /** The opening it finds is held by a job that terminally FAILED. */
  ghost predicate Dead(s: System, input: OpenInput) {
    !Repeated(s, input) && s.row.status == EscrowOpening && s.row.jobId.Some? && !MaySeal(s, s.row.jobId.value)
  }

  /** The call gets to claim the purchase. */
  ghost predicate GoesOn(s: System, input: OpenInput, o: Outcomes) {
    o.read && (s.row.status == PaidPendingEscrow || (Dead(s, input) && o.jobRead == Told && o.reset == Acked))
  }

  /** A claim is acknowledged and its job is asked for. */
  predicate Asks(o: Outcomes) {
    o.chip && o.claim == Acked && o.configured
  }

  ghost function ExpectedAnswer(s: System, input: OpenInput, o: Outcomes): Result {
    if o.read && Repeated(s, input) then Opened(s.row)
    else if GoesOn(s, input, o) then
      if Asks(o) && o.submission.JobReturned? && o.setJob == Acked then
        Opened(EscrowColumns(EscrowOpening, Some(o.submission.job), input.chipId, input.nonce, s.row.openKey))
      else Unavailable
    else if !o.read || (s.row.jobId.Some? && o.jobRead != NoReader && (o.jobRead == ReadFails || Dead(s, input))) then
      Unavailable
    else NotOpenable
  }

  ghost function ExpectedRow(s: System, input: OpenInput, o: Outcomes): EscrowColumns {
    if !GoesOn(s, input, o) then
      if o.read && Dead(s, input) && o.jobRead == Told && o.reset == Unacked then Free(s.row) else s.row
    else
      var free := if s.row.status == PaidPendingEscrow then s.row else Free(s.row);
      var claimed := EscrowColumns(EscrowOpening, None, input.chipId, input.nonce, input.key);
      if !o.chip || o.claim == Rejected then free
      else if o.claim == Acked && !o.configured && o.unclaim != Rejected then
        claimed.(status := PaidPendingEscrow, openKey := "")
      else if Asks(o) && o.submission.JobReturned? && o.setJob != Rejected then
        claimed.(jobId := Some(o.submission.job))
      else claimed
  }

  ghost function ExpectedJobs(s: System, input: OpenInput, o: Outcomes): map<nat, JobState> {
    if GoesOn(s, input, o) && Asks(o) && !o.submission.NotAccepted? then s.jobs[o.submission.job := Live] else s.jobs
  }

  /** An undisturbed call in any reachable state, whatever is lost or refused on its
      way: its answer, and all it leaves behind. "Not openable" is the answer to a
      claim still without a job, to one whose job may still seal and, without a
      reader of job states, to any; never to the key that opened the purchase. */
  lemma OpenCallIs(s0: System, actions: seq<Action>, op: nat, input: OpenInput, o: Outcomes)
    requires Initial(s0)
    requires var s := Run(s0, actions);
      op !in s.operators && (o.submission.NotAccepted? || o.submission.job !in s.jobs)
    ensures var s := Run(s0, actions);
      var t := Run(s, Script(op, input, o));
      && op in t.operators && t.operators[op].pc == Finished(ExpectedAnswer(s, input, o))
      && t.row == ExpectedRow(s, input, o) && t.jobs == ExpectedJobs(s, input, o)
  {
    RunKeepsInv(s0, actions);
    var s := Run(s0, actions);
    ScriptSteps(s, op, input, o);
    ReadIs(s, op, input, o);
    var u := ReadSteps(s, op, input, o);
    if GoesOn(s, input, o) { ClaimIs(u, op, input, o); } else { FinishedStays(u, op, o); }
  }

  lemma ReadIs(s: System, op: nat, input: OpenInput, o: Outcomes)
    requires Inv(s) && op !in s.operators
    ensures var t := ReadSteps(s, op, input, o);
      && op in t.operators && t.operators[op].input == input && t.jobs == s.jobs
      && (if GoesOn(s, input, o) then
            && t.operators[op] == Operator(input, s.row, AtChip)
            && t.row == (if s.row.status == PaidPendingEscrow then s.row else Free(s.row)) && t.row.jobId.None?
          else
            && t.operators[op].pc == Finished(ExpectedAnswer(s, input, o)) && t.row == ExpectedRow(s, input, o))
  {
  }

  lemma FinishedStays(s: System, op: nat, o: Outcomes)
    requires op in s.operators && s.operators[op].pc.Finished?
    ensures ClaimSteps(s, op, o) == s
  {
  }

  lemma ClaimIs(s: System, op: nat, input: OpenInput, o: Outcomes)
    requires op in s.operators && s.operators[op].input == input && s.operators[op].pc == AtChip
    requires s.row.status == PaidPendingEscrow && s.row.jobId.None?
    requires o.submission.NotAccepted? || o.submission.job !in s.jobs
    ensures var t := ClaimSteps(s, op, o);
      var claimed := EscrowColumns(EscrowOpening, None, input.chipId, input.nonce, input.key);
      && op in t.operators
      && t.operators[op].pc == Finished(
           if Asks(o) && o.submission.JobReturned? && o.setJob == Acked then
             Opened(EscrowColumns(EscrowOpening, Some(o.submission.job), input.chipId, input.nonce,
                                  s.operators[op].read.openKey))
           else Unavailable)
      && t.row == (
           if !o.chip || o.claim == Rejected then s.row
           else if o.claim == Acked && !o.configured && o.unclaim != Rejected then
             claimed.(status := PaidPendingEscrow, openKey := "")
           else if Asks(o) && o.submission.JobReturned? && o.setJob != Rejected then
             claimed.(jobId := Some(o.submission.job))
           else claimed)
      && t.jobs == if Asks(o) && !o.submission.NotAccepted? then s.jobs[o.submission.job := Live] else s.jobs
  {
  }

  // ---- Repeated calls ----

  /** While the job of an opening has not FAILED, nobody changes the row. */
  lemma {:induction false} OpeningStaysWhileItsJobMaySeal(s: System, actions: seq<Action>)
    requires Inv(s) && s.row.status == EscrowOpening && s.row.jobId.Some?
    requires MaySeal(Run(s, actions), s.row.jobId.value)
    ensures Run(s, actions).row == s.row
    decreases |actions|
  {
    if actions != [] {
      var t := Apply(s, actions[0]);
      StepKeepsInv(s, actions[0]);
      if s.row.jobId.value in s.jobs && s.jobs[s.row.jobId.value] == FailedForGood {
        FailedStaysFailed(s, actions, s.row.jobId.value);
      }
      if !actions[0].EndJob? && actions[0].op in s.operators { assert OperatorOk(s, actions[0].op); }
      assert t.row == s.row;
      OpeningStaysWhileItsJobMaySeal(t, actions[1..]);
    }
  }

  lemma {:induction false} FailedStaysFailed(s: System, actions: seq<Action>, job: nat)
    requires job in s.jobs && s.jobs[job] == FailedForGood
    ensures var t := Run(s, actions); job in t.jobs && t.jobs[job] == FailedForGood
    decreases |actions|
  {
    if actions != [] { FailedStaysFailed(Apply(s, actions[0]), actions[1..], job); }
  }

  lemma {:induction false} RunConcat(s: System, a: seq<Action>, b: seq<Action>)
    ensures Run(s, a + b) == Run(Run(s, a), b)
    decreases |a|
  {
    if a == [] {
      assert a + b == b;
    } else {
      assert (a + b)[0] == a[0] && (a + b)[1..] == a[1..] + b;
      RunConcat(Apply(s, a[0]), a[1..], b);
    }
  }

  /** Idempotency: after a purchase was opened, and whatever others did since, a call
      with the key that opened it answers with that very job, chip and nonce and
      submits nothing, as long as the job has not FAILED. */
  lemma RepeatedOpeningAnswersTheSame(s0: System, actions: seq<Action>, more: seq<Action>, op: nat, input: OpenInput,
      o: Outcomes)
    requires Initial(s0)
    requires var s := Run(s0, actions); s.row.status == EscrowOpening && s.row.jobId.Some? && s.row.openKey == input.key
    requires var t := Run(Run(s0, actions), more);
      && MaySeal(t, Run(s0, actions).row.jobId.value) && op !in t.operators && o.read
      && (o.submission.NotAccepted? || o.submission.job !in t.jobs)
    ensures var s, t := Run(s0, actions), Run(Run(s0, actions), more);
      var u := Run(t, Script(op, input, o));
      op in u.operators && u.operators[op].pc == Finished(Opened(s.row)) && u.row == s.row && u.jobs == t.jobs
  {
    RunKeepsInv(s0, actions);
    OpeningStaysWhileItsJobMaySeal(Run(s0, actions), more);
    RunConcat(s0, actions, more);
    OpenCallIs(s0, actions + more, op, input, o);
  }

  /** Once the job of an opening has ended, another key opens the purchase anew if it
      FAILED, and never if it completed. */
  lemma ReopenedIffItsJobFailed(s0: System, actions: seq<Action>, completed: bool, op: nat, input: OpenInput, job: nat)
    requires Initial(s0)
    requires var s := Run(s0, actions);
      && s.row.status == EscrowOpening && s.row.jobId.Some? && s.row.openKey != input.key
      && s.row.jobId.value in s.jobs && s.jobs[s.row.jobId.value] == Live && op !in s.operators && job !in s.jobs
    ensures var s := Run(s0, actions);
      var t := Run(Apply(s, EndJob(s.row.jobId.value, completed)), Script(op, input, AllWell(job)));
      && op in t.operators
      && (if completed then t.row == s.row && t.operators[op].pc == Finished(NotOpenable)
          else IsOpenedBy(t, Apply(s, EndJob(s.row.jobId.value, completed)), input, job))
  {
    RunKeepsInv(s0, actions);
    var s := Run(s0, actions);
    var end := EndJob(s.row.jobId.value, completed);
    RunConcat(s0, actions, [end]);
    assert Run(s, [end]) == Apply(s, end);
    OpenCallIs(s0, actions + [end], op, input, AllWell(job));
    OpenableExactlyWhenUnclaimedOrFailed(s0, actions + [end], op, input, job);
  }

  /** Among several, whoever comes second is told so, and changes nothing: to claim a
      purchase no longer free, or to release a claim that no longer names its job. */
  lemma RaceIsLostIff(s0: System, actions: seq<Action>, op: nat)
    requires Initial(s0) && op in Run(s0, actions).operators
    ensures var s := Run(s0, actions);
      && (s.operators[op].pc == AtClaim ==>
            var t := Apply(s, Claim(op, Acked));
            && (t.operators[op].pc == Finished(NotOpenable) <==> s.row.status != PaidPendingEscrow)
            && (t.operators[op].pc == AtSubmit <==> s.row.status == PaidPendingEscrow)
            && (t.operators[op].pc != AtSubmit ==> t.row == s.row))
      && (s.operators[op].pc == AtReset ==>
            var t := Apply(s, Reset(op, Acked));
            var named := s.row.status == EscrowOpening && s.row.jobId == s.operators[op].read.jobId;
            && (t.operators[op].pc == Finished(NotOpenable) <==> !named)
            && (t.operators[op].pc == AtChip <==> named)
            && (t.operators[op].pc != AtChip ==> t.row == s.row))
  {
    RunKeepsInv(s0, actions);
    var s := Run(s0, actions);
    assert OperatorOk(s, op);
  }

  // ---- The store and the service as they are written ----

  class Desk {
    var row: EscrowColumns
    var jobs: map<nat, JobState>

    constructor (row: EscrowColumns, jobs: map<nat, JobState>)
      ensures this.row == row && this.jobs == jobs
    {
      this.row, this.jobs := row, jobs;
    }

    method ClaimEscrowOpening(input: OpenInput) returns (claimed: bool)
      modifies this`row
      ensures claimed <==> Claimed(old(row), input).Some?
      ensures row == if claimed then Claimed(old(row), input).value else old(row)
    {
      claimed := row.status == PaidPendingEscrow && row.jobId.None?;
      if claimed {
        row := row.(status := EscrowOpening, chipId := input.chipId, nonce := input.nonce, openKey := input.key);
      }
    }

    method SetEscrowJobID(job: nat)
      modifies this`row
      ensures row == WithJob(old(row), job)
      ensures old(row).status != EscrowOpening ==> row == old(row)
    {
      if row.status == EscrowOpening { row := row.(jobId := Some(job)); }
    }

    method ResetEscrowOpening()
      modifies this`row
      ensures row == Unclaimed(old(row))
      ensures row != old(row) <==> old(row).status == EscrowOpening && old(row).jobId.None?
    {
      if row.status == EscrowOpening && row.jobId.None? { row := row.(status := PaidPendingEscrow, openKey := ""); }
    }

    method ResetEscrowOpeningAfterFailedJob(failedJob: nat) returns (released: bool)
      modifies this`row
      ensures released <==> ReleasedAfter(old(row), failedJob).Some?
      ensures row == if released then ReleasedAfter(old(row), failedJob).value else old(row)
    {
      released := row.status == EscrowOpening && row.jobId == Some(failedJob);
      if released { row := row.(status := PaidPendingEscrow, jobId := None, openKey := ""); }
    }

    /** releaseFailedEscrowClaim: Some(released), or None on an error. */
    method ReleaseFailedEscrowClaim(charge: EscrowColumns, o: Outcomes) returns (released: Option<bool>)
      modifies this`row
      ensures var job := charge.jobId;
        var dead := charge.status == EscrowOpening && job.Some? && job.value in jobs
          && jobs[job.value] == FailedForGood && o.jobRead == Told;
        && (released == Some(true) <==> dead && o.reset == Acked && ReleasedAfter(old(row), job.value).Some?)
        && (released == None <==> charge.status == EscrowOpening && job.Some? && o.jobRead != NoReader
                                  && (o.jobRead == ReadFails || job.value !in jobs || (dead && o.reset != Acked)))
        && row == if dead && o.reset != Rejected && ReleasedAfter(old(row), job.value).Some?
                  then ReleasedAfter(old(row), job.value).value else old(row)
    {
      if charge.status != EscrowOpening || charge.jobId.None? || o.jobRead == NoReader { return Some(false); }
      if o.jobRead == ReadFails || charge.jobId.value !in jobs { return None; }
      if jobs[charge.jobId.value] != FailedForGood { return Some(false); }
      if o.reset == Rejected { return None; }
      var done := ResetEscrowOpeningAfterFailedJob(charge.jobId.value);
      released := if o.reset == Unacked then None else Some(done);
    }

    method ReadAndRelease(op: nat, input: OpenInput, o: Outcomes, ghost s: System)
      returns (early: Option<Result>, charge: EscrowColumns)
      requires s.row == row && s.jobs == jobs && op !in s.operators
      modifies this`row
      ensures var t := ReadSteps(s, op, input, o);
        && t.row == row && t.jobs == jobs && op in t.operators && t.operators[op].input == input
        && t.operators[op].pc == (if early.Some? then Finished(early.value) else AtChip)
        && t.operators[op].read == charge
    {
      charge := row;
      if !o.read { return Some(Unavailable), charge; }
      if charge.status == EscrowOpening && charge.openKey == input.key && charge.jobId.Some? {
        return Some(Opened(charge)), charge;
      }
      if charge.status != PaidPendingEscrow || charge.jobId.Some? {
        var released := ReleaseFailedEscrowClaim(charge, o);
        if released.None? { return Some(Unavailable), charge; }
        if !released.value { return Some(NotOpenable), charge; }
      }
      early := None;
    }

    method ClaimAndSubmit(op: nat, input: OpenInput, o: Outcomes, charge: EscrowColumns, ghost s: System)
      returns (result: Result)
      requires s.row == row && s.jobs == jobs && op in s.operators && s.operators[op] == Operator(input, charge, AtChip)
      requires o.submission.NotAccepted? || o.submission.job !in jobs
      modifies this
      ensures var t := ClaimSteps(s, op, o);
              t.row == row && t.jobs == jobs && op in t.operators && t.operators[op].pc == Finished(result)
    {
      if !o.chip { return Unavailable; }
      if o.claim == Rejected { return Unavailable; }
      var claimed := ClaimEscrowOpening(input);
      if o.claim == Unacked { return Unavailable; }
      if !claimed { return NotOpenable; }
      if !o.configured {
        if o.unclaim != Rejected { ResetEscrowOpening(); }
        return Unavailable;
      }
      match o.submission
      case NotAccepted => return Unavailable;
      case AcceptedSilently(job) =>
        jobs := jobs[job := Live];
        return Unavailable;
      case JobReturned(job) =>
        jobs := jobs[job := Live];
        if o.setJob != Rejected { SetEscrowJobID(job); }
        if o.setJob != Acked { return Unavailable; }
        result := Opened(
          charge.(status := EscrowOpening, jobId := Some(job), chipId := input.chipId, nonce := input.nonce));
    }

    /** OpenEscrow, one statement after another. Its effect on the row and on the
        job service, and its answer, are those of the transition system's script. */
    method OpenEscrow(op: nat, input: OpenInput, o: Outcomes, ghost s: System) returns (result: Result)
      requires s.row == row && s.jobs == jobs && op !in s.operators
      requires o.submission.NotAccepted? || o.submission.job !in jobs
      modifies this
      ensures var t := Run(s, Script(op, input, o));
              t.row == row && t.jobs == jobs && op in t.operators && t.operators[op].pc == Finished(result)
    {
      ScriptSteps(s, op, input, o);
      var early, charge := ReadAndRelease(op, input, o, s);
      if early.Some? { return early.value; }
      result := ClaimAndSubmit(op, input, o, charge, ReadSteps(s, op, input, o));
    }
  }
}
