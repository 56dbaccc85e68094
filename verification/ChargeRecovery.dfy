/** What recovery answers in every state the charge protocol can reach, and what
    evidence it insists on in any state at all. */
module ChargeRecovery {
  import opened Common
  import opened PurchaseTypes
  import opened IdempotencyTable
  import opened Recovery
  import opened ChargeProtocol
  import opened ChargeInvariant
  import opened ChargeSteps
  import opened ChargeTheorems

  /** The row of an intent, if the table holds one. */
  predicate Reserves(s: System, owner: string, intent: string) {
    IntentKey(owner, intent) in s.rows && IsPurchase(s.rows[IntentKey(owner, intent)])
  }

  lemma ReadsItsRow(s: System, owner: string, intent: string)
    requires Inv(s)
    ensures ReadIntent(s.rows, owner, intent)
      == if Reserves(s, owner, intent) then Some(s.rows[IntentKey(owner, intent)]) else None
  {
    if Reserves(s, owner, intent) { assert RowOk(s, IntentKey(owner, intent)); }
  }

  /** A committed charge of an intent is the one recovery finds. */
  lemma FindsTheCharge(s: System, owner: string, intent: string, j: nat)
    requires Inv(s) && j < |s.charges| && IsFor(s.charges[j], owner, intent)
    ensures FindCharge(s.charges, owner, intent) == Some(s.charges[j])
    ensures Reserves(s, owner, intent) && s.rows[IntentKey(owner, intent)].intent.value.state == Recorded
    ensures !Conflicting(s.rows[IntentKey(owner, intent)].intent.value, s.charges[j])
  {
    FoundCharge(s.charges, owner, intent);
    var found := FindCharge(s.charges, owner, intent);
    assert s.charges[j] in s.charges;
    var i :| 0 <= i < |s.charges| && s.charges[i] == found.value;
    assert ChargeOk(s, s.charges[i]) && ChargeOk(s, s.charges[j]);
    ChargeAgreesWithRow(s, s.charges[i], s.charges[i].escrow);
    ChargeAgreesWithRow(s, s.charges[j], s.charges[j].escrow);
    assert i == j;
  }

  lemma RecordedHasItsCharge(s: System, owner: string, intent: string)
    requires Inv(s) && Reserves(s, owner, intent)
    requires s.rows[IntentKey(owner, intent)].intent.value.state == Recorded
    ensures Committed(s, owner, intent)
  {
    var key := IntentKey(owner, intent);
    assert RowOk(s, key);
    var t := s.rows[key].intent.value.token;
    assert RequestOk(s, t);
    var j :| 0 <= j < |s.charges| && s.charges[j].purchaseId == Issued(t);
    assert ChargeOk(s, s.charges[j]);
    assert IsFor(s.charges[j], owner, intent);
  }

  /** Recovery by intent, in every reachable state: the committed charge if there is
      one; else in progress exactly while the lease of an unfinished row lasts, not
      charged exactly when the row says so, reconciliation otherwise; and nothing
      exactly when the intent was never reserved. */
  lemma IntentRecoveryIsExact(s: System, owner: string, intent: string)
    requires Reachable(s)
    ensures IntentRecovery(s, owner, intent).Some? <==> Reserves(s, owner, intent)
    ensures forall j :: 0 <= j < |s.charges| && IsFor(s.charges[j], owner, intent) ==>
      IntentRecovery(s, owner, intent)
      == Some(Answer(StatusRecorded, FinancialVerificationRequired, Some(intent), Some(s.charges[j]), None))
    ensures Reserves(s, owner, intent) && !Committed(s, owner, intent) ==>
      var i := s.rows[IntentKey(owner, intent)].intent.value;
      && i.state != Recorded
      && IntentRecovery(s, owner, intent).value ==
           if (i.state == Reserved || i.state == Executing) && s.now < i.leaseUntil then
             Answer(StatusInProgress, StillInProgress, Some(intent), None, Some(FinancialUnknown))
           else if i.state == NotCharged then
             Answer(StatusNotCharged, ProvenNotCharged, Some(intent), None, Some(FinancialNotCharged))
           else Answer(StatusUnknown, NeedsReconciliation, Some(intent), None, Some(FinancialUnknown))
  {
    ReachableInv(s);
    ReadsItsRow(s, owner, intent);
    FoundCharge(s.charges, owner, intent);
    forall j | 0 <= j < |s.charges| && IsFor(s.charges[j], owner, intent)
      ensures IntentRecovery(s, owner, intent)
        == Some(Answer(StatusRecorded, FinancialVerificationRequired, Some(intent), Some(s.charges[j]), None))
      ensures Reserves(s, owner, intent)
    {
      FindsTheCharge(s, owner, intent, j);
    }
    var p := FindCharge(s.charges, owner, intent);
    if p.Some? { var j :| 0 <= j < |s.charges| && s.charges[j] == p.value; }
    if Reserves(s, owner, intent) && !Committed(s, owner, intent) {
      assert RowOk(s, IntentKey(owner, intent));
      if s.rows[IntentKey(owner, intent)].intent.value.state == Recorded { RecordedHasItsCharge(s, owner, intent); }
    }
  }

  /** The state right after a request's insert has made its row. */
  ghost predicate JustReserved(s: System, t: System, pid: Token, write: Write) {
    Reachable(s) && At(s, pid, AtInsert) && KeyOf(s, pid) !in s.rows && write != Rejected
    && t == Apply(s, Insert(pid, write))
  }

  /** From the insert on, whatever happens to the request and around it: recovery
      says "in progress" exactly until the lease given then is over or the outcome
      is written. So a request that crashed is never in progress after its lease. */
  lemma LeaseBoundsProgress(s: System, t: System, pid: Token, write: Write, more: seq<Action>)
    requires JustReserved(s, t, pid, write)
    ensures var u := Run(t, more);
      var key := KeyOf(s, pid);
      && key in u.rows && IsPurchase(u.rows[key]) && u.rows[key].intent.value.token == pid
      && IntentRecovery(u, s.requests[pid].input.userId, s.requests[pid].input.intent).Some?
      && (IntentRecovery(u, s.requests[pid].input.userId, s.requests[pid].input.intent).value.status == StatusInProgress
          <==> u.now < s.now + s.lease && !Terminal(u.rows[key].intent.value.state))
  {
    ReachableInv(s);
    StepKeepsInv(s, Insert(pid, write));
    RunEvolves(t, more);
    var u := Run(t, more);
    var key := KeyOf(s, pid);
    assert t.rows[key].intent.value.leaseUntil == s.now + s.lease;
    assert RowEvolves(t.rows[key], u.rows[key], u.now);
    assert RowOk(u, key);
    if u.rows[key].intent.value.state == Recorded {
      RecordedIsNotInProgress(u, key);
    } else {
      ProgressIsTheLease(u, key);
    }
  }

  lemma RecordedIsNotInProgress(s: System, key: Key)
    requires Inv(s) && key in s.rows && IsPurchase(s.rows[key]) && s.rows[key].intent.value.state == Recorded
    ensures var i := s.rows[key].intent.value;
      && key == IntentKey(i.owner, i.intent) && IntentRecovery(s, i.owner, i.intent).Some?
      && IntentRecovery(s, i.owner, i.intent).value.status != StatusInProgress
  {
    var i := s.rows[key].intent.value;
    assert RowOk(s, key);
    ReadsItsRow(s, i.owner, i.intent);
  }

  /** Pruning drops the body of a finished row exactly from the moment it can no longer
      be replayed. */
  lemma PurgeDropsExactlyTheUnreplayable(s: System, key: Key, now: Time)
    requires Reachable(s) && key in s.rows && IsPurchase(s.rows[key])
    requires s.rows[key].body.Some?
    ensures var i := s.rows[key].intent.value;
      && key in PurgeBodies(s.rows, now)
      && (PurgeBodies(s.rows, now)[key].body.None? <==> !ReplayIntent(s.rows[key], i.requestHash, now).Replayed?)
  {
    ReachableInv(s);
    assert RowOk(s, key);
  }

  // ---- Evidence ----

  /** The columns of a charge that are evidence of who owes what for which payment. */
  predicate SameEvidence(c: Charge, d: Charge) {
    && d.purchaseId == c.purchaseId && d.userId == c.userId && d.operation == c.operation && d.intent == c.intent
    && d.requestHash == c.requestHash && d.hashVersion == c.hashVersion && d.paymentIntent == c.paymentIntent
  }

  /** Whatever the charge table might hold in place of a committed charge, recovery
      reports the evidence conflict exactly when one of its seven evidence columns
      was tampered with. */
  lemma TamperingIsDetected(s: System, j: nat, d: Charge)
    requires Reachable(s) && j < |s.charges| && s.charges[j].intent.Some? && s.charges[j].intent.value != ""
    ensures var c := s.charges[j];
      var row := ReadIntent(s.rows, c.userId, c.intent.value);
      && row.Some?
      && var answer := RecoveryResponse(row, Some(d), s.now);
         && (answer.resolution == EvidenceConflict <==> !SameEvidence(c, d))
         && answer == (if SameEvidence(c, d)
                       then Answer(StatusRecorded, FinancialVerificationRequired, d.intent, Some(d), None)
                       else Answer(StatusUnknown, EvidenceConflict, d.intent, Some(d), Some(FinancialUnknown)))
  {
    ReachableInv(s);
    var c := s.charges[j];
    assert ChargeOk(s, c);
    ChargeAgreesWithRow(s, c, c.escrow);
    assert RowOk(s, KeyOf(s, c.purchaseId.token));
  }

  /** And whatever row might stand in place of its own: a conflict exactly when it is of
      other terms or identity, names another payment or purchase, or says that the
      intent was not charged. */
  lemma ContradictingRowIsDetected(s: System, j: nat, row: Row)
    requires Reachable(s) && j < |s.charges| && s.charges[j].purchaseId.Issued? && IsPurchase(row)
    ensures var c, i := s.charges[j], row.intent.value;
      RecoveryResponse(Some(row), Some(c), s.now).resolution == EvidenceConflict <==>
        || Some(i.requestHash) != c.requestHash || i.hashVersion != 1
        || i.owner != c.userId || Some(i.intent) != c.intent
        || (i.paymentIntent.Some? && i.paymentIntent.value != "" && i.paymentIntent != Some(c.paymentIntent))
        || (i.purchaseId.Some? && i.purchaseId != Some(c.purchaseId))
        || i.state == NotCharged
  {
    ReachableInv(s);
    assert ChargeOk(s, s.charges[j]);
  }

  /** A finished row whose stored body is not of the kind its state calls for answers
      neither with that body nor as if nothing were known. */
  lemma UndecodableBodyIsRefused(row: Row, now: Time)
    requires IsPurchase(row) && row.intent.value.hashVersion == 1 && row.intent.value.state in {Recorded, NotCharged}
    requires row.body.Some? && row.intent.value.responseExpiresAt.Some?
    ensures var i := row.intent.value;
      ReplayIntent(row, i.requestHash, now) ==
        if now >= i.responseExpiresAt.value then Refused(ResultBodyExpired, i.purchaseId)
        else if (if i.state == Recorded then row.body.value.ChargeBody? else row.body.value.ErrorBody?) then
          Replayed(row.body.value)
        else Refused(LookupUnavailable, None)
  {
  }

  /** Recovery by purchase id: if by the second read the charge can no longer be
      found under its intent, or another is, that is a conflict too, whatever the
      row says. */
  lemma LostIndexIsDetected(s: System, second: System, id: PurchaseId)
    requires PurchaseRecovery(s, second, id).Some?
    ensures var p := FindById(s.charges, id).value;
      p.intent.Some? ==>
        var indexed := FindCharge(second.charges, p.userId, p.intent.value);
        var row := ReadIntent(second.rows, p.userId, p.intent.value);
        && (indexed.None? || indexed.value.purchaseId != id
            ==> PurchaseRecovery(s, second, id).value.status == StatusUnknown
                && PurchaseRecovery(s, second, id).value.resolution == EvidenceConflict)
        && (indexed.Some? && indexed.value.purchaseId == id
            ==> PurchaseRecovery(s, second, id).value == RecoveryResponse(row, Some(p), second.now))
  {
    FoundById(s.charges, id);
  }
}
