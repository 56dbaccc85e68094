/** Concurrent runs of CreatePurchaseCharge over one shared idempotency table,
    one charge table and the payment provider. A run is any sequence of actions;
    an action that is not enabled leaves the system unchanged. A run of a request
    that gets no further action has crashed. */
module ChargeProtocol {
  import opened Common
  import opened PurchaseTypes
  import opened IdempotencyTable
  import opened Recovery

  // ---- State ----

  /** Where one request stands: the statement it executes next. */
  datatype Pc =
    | AtInsert
    | AtReadBack
    | AtDropBody(copy: Row)
    | AtReplay(copy: Row)
    | AtRecheck
    | AtAbandon(code: Code)
    | AtPrepare
    | AtMark
    | AtStripe
    | AtObserve(status: string)
    | AtLookup(status: string)
    | AtEscrow
    | AtComplete(charge: Charge, isNew: bool)
    | AtFail(effect: bool, code: Code)
    | AtSecondFail
    | Ended(reply: Reply)

  datatype Request = Request(input: Input, amounts: string, paymentIntent: string, pc: Pc)

  /** `answer` is what came back; nobody but the caller sees it. */
  datatype StripeCall = StripeCall(caller: Token, providerKey: Key, answer: Provider)

  datatype System = System(
    rows: Rows,
    charges: seq<Charge>,
    requests: map<Token, Request>,
    calls: seq<StripeCall>,
    written: map<Key, Body>,      // the bytes each terminal write stored, kept for the statements below
    now: Time,
    lease: Time,
    retention: Time)

  datatype Provider = ProviderError | ProviderIntent(id: string, status: string)

  datatype Action =
    | Begin(pid: Token, input: Input)
    | Insert(pid: Token, write: Write)
    | ReadBack(pid: Token, ok: bool)
    | DropExpiredBody(pid: Token, write: Write)
    | AnswerReplay(pid: Token)
    | Recheck(pid: Token, ok: bool)
    | Abandon(pid: Token, write: Write)
    | Prepare(pid: Token, ok: bool, amounts: string)
    | Mark(pid: Token, write: Write)
    | CallStripe(pid: Token, outcome: Provider)
    | ObserveIntent(pid: Token, write: Write)
    | LookupIntent(pid: Token, ok: bool)
    | SubmitEscrow(pid: Token, ok: bool, job: Option<nat>)
    | Complete(pid: Token, write: Write)
    | Fail(pid: Token, write: Write)
    | SecondFail(pid: Token, write: Write)
    | UpdateEscrow(index: nat, columns: EscrowColumns)
    | GenericReserve(key: Key, expiry: Time, sees: bool)
    | GenericSet(key: Key, expiry: Time, status: int, contentType: string, text: string)
    | GenericRelease(key: Key)
    | GenericPurgeBodies
    | GenericPruneExpired
    | Tick(elapsed: nat)

  // ---- Steps ----

  predicate At(s: System, pid: Token, pc: Pc) {
    pid in s.requests && s.requests[pid].pc == pc
  }

  function Goto(s: System, pid: Token, pc: Pc): System
    requires pid in s.requests
  {
    s.(requests := s.requests[pid := s.requests[pid].(pc := pc)])
  }

  function KeyOf(s: System, pid: Token): Key
    requires pid in s.requests
  {
    InputKey(s.requests[pid].input)
  }

  /** Run a compare-and-set for `pid`, then continue as the caller decides. */
  function CasStep(s: System, pid: Token, change: Change, write: Write): (System, CasResult)
    requires pid in s.requests
  {
    var (rows, told) := Cas(s.rows, KeyOf(s, pid), pid, change, write);
    (s.(rows := rows), told)
  }

  function FindCharge(charges: seq<Charge>, owner: string, intent: string): Option<Charge> {
    if charges == [] then None
    else if && charges[0].userId == owner
            && charges[0].operation == Some(PURCHASE_OPERATION)
            && charges[0].intent == Some(intent)
    then Some(charges[0])
    else FindCharge(charges[1..], owner, intent)
  }

  function FindByPayment(charges: seq<Charge>, pi: string): Option<Charge> {
    if charges == [] then None
    else if charges[0].paymentIntent == pi then Some(charges[0])
    else FindByPayment(charges[1..], pi)
  }

  function FindById(charges: seq<Charge>, id: PurchaseId): Option<Charge> {
    if charges == [] then None
    else if charges[0].purchaseId == id then Some(charges[0])
    else FindById(charges[1..], id)
  }

  /** The three unique indexes of the charge table. */
  predicate ChargeConflict(charges: seq<Charge>, c: Charge) {
    exists j | 0 <= j < |charges| ::
      || charges[j].paymentIntent == c.paymentIntent
      || charges[j].purchaseId == c.purchaseId
      || (c.operation.Some? && c.intent.Some? && charges[j].userId == c.userId
          && charges[j].operation == c.operation && charges[j].intent == c.intent)
  }

  /** CompleteCharge: insert the charge and record the intent, both or neither. */
  function CompleteTx(s: System, pid: Token, charge: Charge, isNew: bool, write: Write): (System, bool)
    requires pid in s.requests
  {
    var key := KeyOf(s, pid);
    if || write == Rejected
       || (isNew && ChargeConflict(s.charges, charge))
       || !Owns(s.rows, key, pid, {Executing})
    then (s, false)
    else
      var stored := if isNew then charge.(id := |s.charges| + 1) else charge;
      var body := ChargeBody(stored);
      (s.(rows := s.rows[key := Changed(s.rows[key], Record(stored.purchaseId, body, s.now + s.retention))],
          charges := if isNew then s.charges + [stored] else s.charges,
          written := s.written[key := body]),
       write == Acked)
  }

  function NewCharge(r: Request, pid: Token, escrow: EscrowColumns): Charge {
    Charge(0, Issued(pid), r.input.userId, Some(PURCHASE_OPERATION), Some(r.input.intent),
           Some(RequestHash(r.input)), Some(1), r.paymentIntent, r.amounts, escrow)
  }

  /** Unexpected reuse of a payment intent needs complete matching evidence. */
  predicate SameObligation(previous: Charge, input: Input) {
    && previous.userId == input.userId
    && TextOf(previous.intent) == input.intent
    && TextOf(previous.operation) == PURCHASE_OPERATION
    && previous.requestHash == Some(RequestHash(input))
    && previous.hashVersion == Some(1)
  }

  function ApplyInsert(s: System, pid: Token, write: Write): System {
    if !At(s, pid, AtInsert) then s
    else
      var r := s.requests[pid];
      var s' := if write == Rejected then s
                else s.(rows := InsertIntent(s.rows, r.input, pid, s.now + s.lease));
      Goto(s', pid, if write == Acked then AtReadBack else Ended(Refused(ReservationUnavailable, None)))
  }

  function ApplyReadBack(s: System, pid: Token, ok: bool): System {
    if !At(s, pid, AtReadBack) then s
    else
      var r := s.requests[pid];
      var row := ReadIntent(s.rows, r.input.userId, r.input.intent);
      if !ok || row.None? then Goto(s, pid, Ended(Refused(ReservationUnavailable, None)))
      else if row.value.intent.value.token == pid then Goto(s, pid, AtRecheck)
      else if Purgeable(row.value, s.now) then Goto(s, pid, AtDropBody(row.value))
      else Goto(s, pid, AtReplay(row.value))
  }

  function ApplyDropBody(s: System, pid: Token, write: Write): System {
    if !(pid in s.requests && s.requests[pid].pc.AtDropBody?) then s
    else
      var copy := s.requests[pid].pc.copy;
      var s' := if write == Rejected then s else s.(rows := DropBody(s.rows, KeyOf(s, pid)));
      Goto(s', pid, if write == Acked then AtReplay(copy.(body := None))
        else Ended(Refused(ReservationUnavailable, None)))
  }

  function ApplyAnswerReplay(s: System, pid: Token): System {
    if !(pid in s.requests && s.requests[pid].pc.AtReplay?) then s
    else if s.requests[pid].pc.copy.intent.None? then s
    else Goto(s, pid, Ended(ReplayIntent(s.requests[pid].pc.copy, RequestHash(s.requests[pid].input), s.now)))
  }

  function ApplyRecheck(s: System, pid: Token, ok: bool): System {
    if !At(s, pid, AtRecheck) then s
    else
      var r := s.requests[pid];
      var existing := FindCharge(s.charges, r.input.userId, r.input.intent);
      if !ok then Goto(s, pid, AtAbandon(LookupUnavailable))
      else if existing.None? then Goto(s, pid, AtPrepare)
      else if existing.value.requestHash != Some(RequestHash(r.input)) || existing.value.hashVersion != Some(1) then
        Goto(s, pid, AtAbandon(TermsConflict))
      else Goto(s, pid, AtAbandon(ResultBodyExpired))
  }

  function ApplyAbandon(s: System, pid: Token, write: Write): System {
    if !(pid in s.requests && s.requests[pid].pc.AtAbandon?) then s
    else
      var code := s.requests[pid].pc.code;
      Goto(CasStep(s, pid, FailUncertain(code), write).0, pid, Ended(Failed(code, None)))
  }

  /** Price, seller, fee and FLOW quote: everything that can still fail before
      the provider is called. */
  function ApplyPrepare(s: System, pid: Token, ok: bool, amounts: string): System {
    if !At(s, pid, AtPrepare) then s
    else if !ok then Goto(s, pid, AtFail(false, NotChargedCode))
    else
      var s' := s.(requests := s.requests[pid := s.requests[pid].(amounts := amounts)]);
      Goto(s', pid, AtMark)
  }

  function ApplyMark(s: System, pid: Token, write: Write): System {
    if !At(s, pid, AtMark) then s
    else
      var (s', told) := CasStep(s, pid, MarkExecuting, write);
      Goto(s', pid, if told == Updated then AtStripe else AtFail(true, ReconciliationRequired))
  }

  function ApplyCallStripe(s: System, pid: Token, outcome: Provider): System {
    if !At(s, pid, AtStripe) then s
    else
      var s' := s.(calls := s.calls + [StripeCall(pid, KeyOf(s, pid), outcome)]);
      if outcome == ProviderError || outcome.id == "" then Goto(s', pid, AtFail(true, ReconciliationRequired))
      else
        var s'' := s'.(requests := s'.requests[pid := s'.requests[pid].(paymentIntent := outcome.id)]);
        Goto(s'', pid, AtObserve(outcome.status))
  }

  function ApplyObserve(s: System, pid: Token, write: Write): System {
    if !(pid in s.requests && s.requests[pid].pc.AtObserve?) then s
    else
      var r := s.requests[pid];
      var (s', told) := CasStep(s, pid, Observe(r.paymentIntent, r.pc.status), write);
      Goto(s', pid,
           if told == Updated then AtLookup(r.pc.status)
           else if told == DuplicateKey then AtFail(true, PaymentIntentConflict)
           else AtFail(true, ReconciliationRequired))
  }

  function ApplyLookup(s: System, pid: Token, ok: bool): System {
    if !(pid in s.requests && s.requests[pid].pc.AtLookup?) then s
    else
      var r := s.requests[pid];
      var previous := FindByPayment(s.charges, r.paymentIntent);
      if !ok then Goto(s, pid, AtFail(true, ReconciliationRequired))
      else if previous.Some? then
        Goto(s, pid, if SameObligation(previous.value, r.input) then AtComplete(previous.value, false)
                     else AtFail(true, PaymentIntentConflict))
      else if r.pc.status != "succeeded" then Goto(s, pid, AtFail(true, ReconciliationRequired))
      else if r.input.chipId != "" then Goto(s, pid, AtEscrow)
      else
        var unopened := EscrowColumns(PaidPendingEscrow, None, "", r.input.nonce, "");
        Goto(s, pid, AtComplete(NewCharge(r, pid, unopened), true))
  }

  function ApplySubmitEscrow(s: System, pid: Token, ok: bool, job: Option<nat>): System {
    if !At(s, pid, AtEscrow) then s
    else if !ok then Goto(s, pid, AtFail(true, ReconciliationRequired))
    else
      var r := s.requests[pid];
      var opening := EscrowColumns(EscrowOpening, job, r.input.chipId, r.input.nonce, "");
      Goto(s, pid, AtComplete(NewCharge(r, pid, opening), true))
  }

  function ApplyComplete(s: System, pid: Token, write: Write): System {
    if !(pid in s.requests && s.requests[pid].pc.AtComplete?) then s
    else
      var pc := s.requests[pid].pc;
      var (s', acked) := CompleteTx(s, pid, pc.charge, pc.isNew, write);
      var stored := if pc.isNew then pc.charge.(id := |s.charges| + 1) else pc.charge;
      Goto(s', pid, if acked then Ended(Completed(ChargeBody(stored))) else AtFail(true, ReconciliationRequired))
  }

  function CleanBody(input: Input): Body {
    ErrorBody(503, NotChargedCode, input.intent)
  }

  /** The deferred failure write of a run that returned an error. */
  function ApplyFail(s: System, pid: Token, write: Write): System {
    if !(pid in s.requests && s.requests[pid].pc.AtFail?) then s
    else
      var r := s.requests[pid];
      var key := KeyOf(s, pid);
      if r.pc.effect then
        var (s', told) := CasStep(s, pid, FailUncertain(r.pc.code), write);
        Goto(s', pid, if told == Updated then Ended(Failed(r.pc.code, None)) else AtSecondFail)
      else
        var body := CleanBody(r.input);
        var applies := write != Rejected && Owns(s.rows, key, pid, {Reserved});
        var (s', told) := CasStep(s, pid, FailClean(r.pc.code, 503, body, s.now + s.retention), write);
        var s'' := if applies then s'.(written := s'.written[key := body]) else s';
        Goto(s'', pid, if told == Updated then Ended(Failed(r.pc.code, Some(body))) else AtSecondFail)
  }

  function ApplySecondFail(s: System, pid: Token, write: Write): System {
    if !At(s, pid, AtSecondFail) then s
    else
      Goto(CasStep(s, pid, FailUncertain(ReconciliationRequired), write).0, pid,
        Ended(Failed(ReconciliationRequired, None)))
  }

  function Apply(s: System, a: Action): System {
    match a
    case Begin(pid, input) =>
      if pid in s.requests then s else s.(requests := s.requests[pid := Request(input, "", "", AtInsert)])
    case Insert(pid, write) => ApplyInsert(s, pid, write)
    case ReadBack(pid, ok) => ApplyReadBack(s, pid, ok)
    case DropExpiredBody(pid, write) => ApplyDropBody(s, pid, write)
    case AnswerReplay(pid) => ApplyAnswerReplay(s, pid)
    case Recheck(pid, ok) => ApplyRecheck(s, pid, ok)
    case Abandon(pid, write) => ApplyAbandon(s, pid, write)
    case Prepare(pid, ok, amounts) => ApplyPrepare(s, pid, ok, amounts)
    case Mark(pid, write) => ApplyMark(s, pid, write)
    case CallStripe(pid, outcome) => ApplyCallStripe(s, pid, outcome)
    case ObserveIntent(pid, write) => ApplyObserve(s, pid, write)
    case LookupIntent(pid, ok) => ApplyLookup(s, pid, ok)
    case SubmitEscrow(pid, ok, job) => ApplySubmitEscrow(s, pid, ok, job)
    case Complete(pid, write) => ApplyComplete(s, pid, write)
    case Fail(pid, write) => ApplyFail(s, pid, write)
    case SecondFail(pid, write) => ApplySecondFail(s, pid, write)
    case UpdateEscrow(index, columns) =>
      if index < |s.charges| then s.(charges := s.charges[index := s.charges[index].(escrow := columns)]) else s
    case GenericReserve(key, expiry, sees) => s.(rows := TryReserve(s.rows, key, s.now, expiry, sees))
    case GenericSet(key, expiry, status, contentType, text) =>
      s.(rows := SetResponse(s.rows, key, s.now, expiry, status, contentType, text))
    case GenericRelease(key) => s.(rows := Release(s.rows, key))
    case GenericPurgeBodies => s.(rows := PurgeBodies(s.rows, s.now))
    case GenericPruneExpired => s.(rows := PruneExpired(s.rows, s.now))
    case Tick(elapsed) => s.(now := s.now + elapsed)
  }

  function Run(s: System, actions: seq<Action>): System
    decreases |actions|
  {
    if actions == [] then s else Run(Apply(s, actions[0]), actions[1..])
  }

  /** Any cache rows and any charges from before durable intents existed. */
  ghost predicate Initial(s: System) {
    && (forall k :: k in s.rows ==> !IsPurchase(s.rows[k]))
    && (forall j :: 0 <= j < |s.charges| ==> IsLegacy(s.charges[j]))
    && s.requests == map[] && s.calls == [] && s.written == map[]
    && s.retention > 0
  }

  predicate IsLegacy(c: Charge) {
    c.purchaseId.Legacy? && c.intent.None? && c.operation.None?
  }
}
