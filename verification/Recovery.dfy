/** Pure answers computed from stored evidence: the recovery classification and
    the replay decision of a repeated request. */
module Recovery {
  import opened Common
  import opened PurchaseTypes

  datatype ExecutionStatus = StatusUnknown | StatusInProgress | StatusNotCharged | StatusRecorded

  datatype Resolution =
    | NeedsReconciliation
    | StillInProgress
    | ProvenNotCharged
    | FinancialVerificationRequired
    | EvidenceConflict

  datatype FinancialStatus = FinancialUnknown | FinancialNotCharged

  datatype Answer = Answer(
    status: ExecutionStatus, resolution: Resolution, intentId: Option<string>,
    purchase: Option<Charge>, financial: Option<FinancialStatus>)

  function TextOf(v: Option<string>): string {
    if v.Some? then v.value else ""
  }

  /** The reservation and the charge contradict each other. */
  predicate Conflicting(i: Intent, p: Charge) {
    || Some(i.requestHash) != p.requestHash
    || i.hashVersion != (if p.hashVersion.Some? then p.hashVersion.value else 0)
    || i.owner != p.userId
    || i.intent != TextOf(p.intent)
    || TextOf(p.operation) != PURCHASE_OPERATION
    || (TextOf(i.paymentIntent) != "" && TextOf(i.paymentIntent) != p.paymentIntent)
    || (i.purchaseId.Some? && i.purchaseId.value != p.purchaseId)
    || i.state == NotCharged
  }

  function RecoveryResponse(row: Option<Row>, p: Option<Charge>, now: Time): Answer
    requires row.Some? ==> row.value.intent.Some?
  {
    var base :=
      if row.None? then Answer(StatusUnknown, NeedsReconciliation, None, None, None)
      else
        var i := row.value.intent.value;
        var r := Answer(StatusUnknown, NeedsReconciliation, Some(i.intent), None, Some(FinancialUnknown));
        match i.state
        case Reserved => if now < i.leaseUntil then r.(status := StatusInProgress, resolution := StillInProgress) else r
        case Executing => if now < i.leaseUntil then r.(status := StatusInProgress, resolution := StillInProgress)
            else r
        case NotCharged =>
          if !i.effect then
            r.(status := StatusNotCharged, resolution := ProvenNotCharged, financial := Some(FinancialNotCharged))
          else r
        case Recorded => r
        case Unknown => r;
    if p.None? then base
    else
      var r := base.(intentId := p.value.intent, purchase := p, financial := None,
                     status := StatusRecorded, resolution := FinancialVerificationRequired);
      if row.Some? && Conflicting(row.value.intent.value, p.value) then
        r.(status := StatusUnknown, resolution := EvidenceConflict, financial := Some(FinancialUnknown))
      else r
  }

  datatype Reply =
    | Replayed(body: Body)
    | Refused(code: Code, purchaseId: Option<PurchaseId>)
    | Completed(body: Body)
    | Failed(code: Code, stored: Option<Body>)

  /** replayIntent: what a request that did not win the reservation is told. */
  function ReplayIntent(row: Row, hash: Terms, now: Time): Reply
    requires row.intent.Some?
  {
    var i := row.intent.value;
    if i.requestHash != hash || i.hashVersion != 1 then Refused(TermsConflict, None)
    else if i.state == Recorded || i.state == NotCharged then
      if row.body.None? || i.responseExpiresAt.None? || now >= i.responseExpiresAt.value then
        Refused(ResultBodyExpired, i.purchaseId)
      else if i.state == NotCharged && !row.body.value.ErrorBody? then Refused(LookupUnavailable, None)
      else if i.state == Recorded && !row.body.value.ChargeBody? then Refused(LookupUnavailable, None)
      else Replayed(row.body.value)
    else if (i.state == Reserved || i.state == Executing) && now < i.leaseUntil then Refused(IntentInProgress, None)
    else Refused(ReconciliationRequired, None)
  }
}
