/** The inductive invariant of the charge protocol. Every row, charge and
    request is described on its own; a step of one request only moves its own
    three entries. */
module ChargeInvariant {
  import opened Common
  import opened PurchaseTypes
  import opened IdempotencyTable
  import opened Recovery
  import opened ChargeProtocol

  ghost predicate Called(s: System, pid: Token) {
    exists j :: 0 <= j < |s.calls| && s.calls[j].caller == pid
  }

  /** The provider answered this executor with that payment. */
  ghost predicate Told(s: System, pid: Token, paymentIntent: string, status: string) {
    exists j :: 0 <= j < |s.calls| && s.calls[j].caller == pid
      && s.calls[j].answer == ProviderIntent(paymentIntent, status)
  }

  function Own(s: System, pid: Token): Option<Row>
    requires pid in s.requests
  {
    OwnRow(s.rows, KeyOf(s, pid), pid)
  }

  /** A purchase row: bound to its request, effect flag and stored body in step
      with its state. */
  ghost predicate RowOk(s: System, key: Key)
    requires key in s.rows && IsPurchase(s.rows[key])
  {
    var row := s.rows[key];
    var i := row.intent.value;
    && key == IntentKey(i.owner, i.intent)
    && i.token in s.requests
    && KeyOf(s, i.token) == key
    && i.requestHash == RequestHash(s.requests[i.token].input) && i.hashVersion == 1
    && (i.effect ==> i.state != Reserved && i.state != NotCharged)
    && (i.state == Executing || i.state == Recorded ==> i.effect)
    && (i.purchaseId == if i.state == Recorded then Some(Issued(i.token)) else None)
    && i.paymentIntent.Some? == i.paymentStatus.Some?
    && (i.paymentIntent.Some? ==>
          i.paymentIntent.value != "" && Told(s, i.token, i.paymentIntent.value, i.paymentStatus.value))
    && BodyOk(s, key, row)
  }

  ghost predicate BodyOk(s: System, key: Key, row: Row)
    requires IsPurchase(row)
  {
    var i := row.intent.value;
    if i.state == Recorded || i.state == NotCharged then
      && i.responseExpiresAt.Some?
      && key in s.written
      && (row.body.Some? ==> row.body.value == s.written[key])
      && (row.body.None? ==> i.responseExpiresAt.value <= s.now)
      && (i.state == Recorded ==> s.written[key].ChargeBody?)
      && (i.state == NotCharged ==> s.written[key].ErrorBody?)
    else
      row.body == None && i.responseExpiresAt == None && key !in s.written
  }

  /** A charge is either older than durable intents or belongs to a recorded row. */
  ghost predicate ChargeOk(s: System, c: Charge) {
    IsLegacy(c) ||
    (&& c.purchaseId.Issued?
     && var t := c.purchaseId.token;
        t in s.requests && Own(s, t).Some? &&
        var r := s.requests[t];
        var i := Own(s, t).value.intent.value;
        && i.state == Recorded
        && c.userId == r.input.userId && c.operation == Some(PURCHASE_OPERATION) && c.intent == Some(r.input.intent)
        && c.requestHash == Some(RequestHash(r.input)) && c.hashVersion == Some(1)
        && i.paymentIntent == Some(c.paymentIntent) && i.paymentStatus == Some("succeeded"))
  }

  ghost predicate DistinctIds(charges: seq<Charge>) {
    forall i, j :: 0 <= i < j < |charges| && charges[i].purchaseId.Issued? ==>
      charges[i].purchaseId != charges[j].purchaseId
  }

  ghost predicate HasCharge(charges: seq<Charge>, pid: Token) {
    exists j :: 0 <= j < |charges| && charges[j].purchaseId == Issued(pid)
  }

  /** A copy another request read: an earlier version of the row it came from. */
  ghost predicate CopyOk(s: System, r: Request, copy: Row) {
    && IsPurchase(copy)
    && var key := InputKey(r.input);
       var i := copy.intent.value;
       && key in s.rows && IsPurchase(s.rows[key])
       && i.requestHash == s.rows[key].intent.value.requestHash && i.hashVersion == 1
       && i.token == s.rows[key].intent.value.token && i.leaseUntil == s.rows[key].intent.value.leaseUntil
       && i.purchaseId == (if i.state == Recorded then Some(Issued(i.token)) else None)
       && (if i.state == Recorded || i.state == NotCharged then
             && i.state == s.rows[key].intent.value.state
             && i.responseExpiresAt == s.rows[key].intent.value.responseExpiresAt
             && BodyOk(s, key, copy)
           else copy.body == None)
  }

  /** What each statement of a run knows about its own row. */
  ghost predicate PcOk(r: Request, own: Option<Row>, called: bool) {
    match r.pc
    case AtInsert => own.None? && !called
    case AtReadBack => !called && (own.Some? ==> InState(own, {Reserved}))
    case AtDropBody(_) => own.None? && !called
    case AtReplay(_) => own.None? && !called
    case AtRecheck => InState(own, {Reserved}) && !called
    case AtAbandon(_) => InState(own, {Reserved}) && !called
    case AtPrepare => InState(own, {Reserved}) && !called
    case AtMark => InState(own, {Reserved}) && !called
    case AtStripe => InState(own, {Executing}) && !called
    case AtObserve(_) => InState(own, {Executing}) && called && r.paymentIntent != ""
    case AtLookup(status) => Observed(r, own, status) && called
    case AtEscrow => Observed(r, own, "succeeded") && called
    case AtComplete(c, isNew) => Observed(r, own, "succeeded") && called && isNew && ChargeOf(r, own, c)
    case AtFail(effect, _) =>
      if effect then InState(own, {Reserved, Executing, Recorded}) else InState(own, {Reserved}) && !called
    case AtSecondFail => own.Some?
    case Ended(reply) => own.Some? || !called
  }

  ghost predicate InState(own: Option<Row>, states: set<ExecutionState>) {
    own.Some? && IsPurchase(own.value) && own.value.intent.value.state in states
  }

  ghost predicate Observed(r: Request, own: Option<Row>, status: string) {
    && InState(own, {Executing}) && own.value.intent.value.paymentIntent == Some(r.paymentIntent)
    && own.value.intent.value.paymentStatus == Some(status)
  }

  ghost predicate ChargeOf(r: Request, own: Option<Row>, c: Charge)
    requires own.Some? && IsPurchase(own.value)
  {
    c == NewCharge(r, own.value.intent.value.token, c.escrow)
  }

  ghost predicate ReplyOk(s: System, pid: Token, reply: Reply)
    requires pid in s.requests
  {
    var key := KeyOf(s, pid);
    match reply
    case Replayed(body) =>
      && key in s.written && body == s.written[key]
      && key in s.rows && IsPurchase(s.rows[key])
      && s.rows[key].intent.value.requestHash == RequestHash(s.requests[pid].input)
    case Completed(body) => key in s.written && body == s.written[key]
    case Failed(code, stored) =>
      stored.Some? ==> key in s.written && stored.value == s.written[key] && !Called(s, pid)
    case Refused(code, _) => true
  }

  /** What holds of a request whatever statement it is at. */
  ghost predicate CoreOk(s: System, pid: Token)
    requires pid in s.requests
  {
    var own := Own(s, pid);
    && (Called(s, pid) ==>
        own.Some? && own.value.intent.value.effect && own.value.intent.value.state in {Executing, Recorded, Unknown})
    && (own.Some? && own.value.intent.value.state == Recorded ==> HasCharge(s.charges, pid))
  }

  /** What holds at statement `pc`. */
  ghost predicate PlaceOk(s: System, pid: Token, r: Request)
    requires pid in s.requests && r.input == s.requests[pid].input
  {
    && PcOk(r, Own(s, pid), Called(s, pid))
    && (r.pc.AtDropBody? ==> CopyOk(s, r, r.pc.copy) && Purgeable(r.pc.copy, s.now))
    && (r.pc.AtReplay? ==> CopyOk(s, r, r.pc.copy))
    && (r.pc.AtObserve? ==> Told(s, pid, r.paymentIntent, r.pc.status))
    && (r.pc.Ended? ==> ReplyOk(s, pid, r.pc.reply))
  }

  ghost predicate RequestOk(s: System, pid: Token)
    requires pid in s.requests
  {
    CoreOk(s, pid) && PlaceOk(s, pid, s.requests[pid])
  }

  ghost predicate Inv(s: System) {
    && s.retention > 0
    && (forall k :: k in s.written ==> k in s.rows && IsPurchase(s.rows[k]))
    && (forall k :: k in s.rows && IsPurchase(s.rows[k]) ==> RowOk(s, k))
    && (forall j :: 0 <= j < |s.charges| ==> ChargeOk(s, s.charges[j]))
    && DistinctIds(s.charges)
    && (forall pid :: pid in s.requests ==> RequestOk(s, pid))
    && (forall j :: 0 <= j < |s.calls| ==>
        s.calls[j].caller in s.requests && s.calls[j].providerKey == KeyOf(s, s.calls[j].caller))
    && (forall i, j :: 0 <= i < j < |s.calls| ==> s.calls[i].caller != s.calls[j].caller)
  }

  lemma InitialHolds(s: System)
    requires Initial(s)
    ensures Inv(s)
  {
  }
}
