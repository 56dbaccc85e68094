/** What the charge protocol guarantees in every run. */
module ChargeTheorems {
  import opened Common
  import opened PurchaseTypes
  import opened IdempotencyTable
  import opened Recovery
  import opened ChargeProtocol
  import opened ChargeInvariant
  import opened ChargeSteps

  ghost predicate Reachable(s: System) {
    exists s0: System, actions: seq<Action> :: Initial(s0) && s == Run(s0, actions)
  }

  lemma ReachableInv(s: System)
    requires Reachable(s)
    ensures Inv(s)
  {
    var s0: System, actions: seq<Action> :| Initial(s0) && s == Run(s0, actions);
    InitialHolds(s0);
    RunKeepsInv(s0, actions);
  }

  // ---- One call per intent ----

  /** However many requests race, crash, lose acknowledgements or share the
      table with the generic store, the provider is called at most once for
      each (owner, intent), always by the holder of its reservation. */
  lemma OneProviderCallPerIntent(s: System, i: nat, j: nat)
    requires Reachable(s)
    requires i < j < |s.calls|
    ensures s.calls[i].providerKey != s.calls[j].providerKey
  {
    ReachableInv(s);
    var a, b := s.calls[i].caller, s.calls[j].caller;
    assert Called(s, a) && Called(s, b);
    assert RequestOk(s, a) && RequestOk(s, b);
  }

  /** Once the provider has been called the effect flag is set and the row is
      executing, recorded or unknown; so a row that says `not_charged` was
      never followed by a call. */
  lemma CallLeavesItsMark(s: System, j: nat)
    requires Reachable(s) && j < |s.calls|
    ensures var key := s.calls[j].providerKey;
            && key in s.rows && IsPurchase(s.rows[key])
            && s.rows[key].intent.value.token == s.calls[j].caller
            && s.rows[key].intent.value.effect
            && s.rows[key].intent.value.state in {Executing, Recorded, Unknown}
  {
    ReachableInv(s);
    assert Called(s, s.calls[j].caller);
    assert RequestOk(s, s.calls[j].caller);
  }

  lemma NotChargedWasNeverCalled(s: System, key: Key)
    requires Reachable(s)
    requires key in s.rows && IsPurchase(s.rows[key]) && s.rows[key].intent.value.state == NotCharged
    ensures forall j :: 0 <= j < |s.calls| ==> s.calls[j].providerKey != key
  {
    forall j | 0 <= j < |s.calls| ensures s.calls[j].providerKey != key {
      CallLeavesItsMark(s, j);
    }
  }

  // ---- What never changes ----

  /** A purchase row keeps its executor and terms for ever; a finished row keeps
      its outcome, and its body until that has expired. */
  ghost predicate RowEvolves(before: Row, after: Row, now: Time)
    requires IsPurchase(before)
  {
    IsPurchase(after) &&
    var i, j := before.intent.value, after.intent.value;
    && SameReservation(i, j)
    && (Terminal(i.state) ==>
          && after == before.(body := after.body)
          && (after.body == before.body || (after.body == None && BodyExpired(before, now))))
  }

  ghost predicate Evolves(s: System, t: System) {
    && t.now >= s.now
    && (forall k :: k in s.rows && IsPurchase(s.rows[k]) ==> k in t.rows && RowEvolves(s.rows[k], t.rows[k], t.now))
    && s.calls <= t.calls
    && |t.charges| >= |s.charges|
    && (forall j :: 0 <= j < |s.charges| ==> t.charges[j] == s.charges[j].(escrow := t.charges[j].escrow))
  }

  lemma OwnStepEvolves(s: System, t: System, pid: Token)
    requires OwnStep(s, t, pid)
    ensures Evolves(s, t)
  {
  }

  lemma BackgroundEvolves(s: System, t: System)
    requires Background(s, t)
    ensures Evolves(s, t)
  {
  }

  lemma EvolvesTransitive(s: System, t: System, u: System)
    requires Evolves(s, t) && Evolves(t, u)
    ensures Evolves(s, u)
  {
    forall k | k in s.rows && IsPurchase(s.rows[k]) ensures k in u.rows && RowEvolves(s.rows[k], u.rows[k], u.now) {
      assert RowEvolves(s.rows[k], t.rows[k], t.now) && RowEvolves(t.rows[k], u.rows[k], u.now);
    }
    forall j | 0 <= j < |s.charges| ensures u.charges[j] == s.charges[j].(escrow := u.charges[j].escrow) {
      assert t.charges[j] == s.charges[j].(escrow := t.charges[j].escrow);
    }
  }

  lemma DropBodyEvolves(s: System, pid: Token, write: Write)
    requires Inv(s)
    ensures Evolves(s, Apply(s, DropExpiredBody(pid, write)))
  {
    if pid in s.requests && s.requests[pid].pc.AtDropBody? {
      InvIsLocal(s, pid);
      DropBodyIsBackground(s, pid, write);
      BackgroundEvolves(s, DropBodyTable(s, pid, write));
      GotoEvolves(s, DropBodyTable(s, pid, write), pid, Apply(s, DropExpiredBody(pid, write)).requests[pid].pc);
    }
  }

  lemma GotoEvolves(s: System, u: System, pid: Token, pc: Pc)
    requires Evolves(s, u) && pid in u.requests
    ensures Evolves(s, Goto(u, pid, pc))
  {
  }

  lemma RowsUntouched(s: System, t: System)
    requires t.rows == s.rows && t.now == s.now && t.calls == s.calls && |t.charges| == |s.charges|
    requires forall j :: 0 <= j < |s.charges| ==> t.charges[j] == s.charges[j].(escrow := t.charges[j].escrow)
    ensures Evolves(s, t)
  {
  }

  lemma RequestEvolves(s: System, a: Action)
    requires Inv(s) && (EarlyAction(a) || LateAction(a))
    ensures Evolves(s, Apply(s, a))
  {
    if Apply(s, a) != s {
      InvIsLocal(s, a.pid);
      if EarlyAction(a) { EarlyActionLocal(s, a); } else { LateActionLocal(s, a); }
      OwnStepEvolves(s, Apply(s, a), a.pid);
    }
  }

  lemma StepEvolves(s: System, a: Action)
    requires Inv(s)
    ensures Evolves(s, Apply(s, a))
  {
    if EarlyAction(a) || LateAction(a) {
      RequestEvolves(s, a);
    } else {
      match a
      case Begin(pid, input) => RowsUntouched(s, Apply(s, a));
      case DropExpiredBody(pid, write) => DropBodyEvolves(s, pid, write);
      case UpdateEscrow(index, columns) => RowsUntouched(s, Apply(s, a));
      case _ =>
        GenericIsBackground(s, a);
        BackgroundEvolves(s, Apply(s, a));
    }
  }

  /** Over any continuation, whatever the leases and lost acknowledgements: no
      takeover of a reservation, no way out of a terminal state, no second
      version of a stored body, no lost or rewritten charge. */
  lemma {:induction false} RunEvolves(s: System, actions: seq<Action>)
    requires Inv(s)
    ensures Inv(Run(s, actions)) && Evolves(s, Run(s, actions))
    decreases |actions|
  {
    if actions != [] {
      StepKeepsInv(s, actions[0]);
      StepEvolves(s, actions[0]);
      RunEvolves(Apply(s, actions[0]), actions[1..]);
      EvolvesTransitive(s, Apply(s, actions[0]), Run(s, actions));
    }
  }

  // ---- Recovery ----

  predicate IsFor(c: Charge, owner: string, intent: string) {
    c.userId == owner && c.operation == Some(PURCHASE_OPERATION) && c.intent == Some(intent)
  }

  lemma FoundCharge(charges: seq<Charge>, owner: string, intent: string)
    ensures var p := FindCharge(charges, owner, intent);
      && (p.Some? ==> p.value in charges && IsFor(p.value, owner, intent))
      && (p.None? ==> forall c :: c in charges ==> !IsFor(c, owner, intent))
  {
  }

  lemma FoundById(charges: seq<Charge>, id: PurchaseId)
    ensures var p := FindById(charges, id);
      && (p.Some? ==> p.value in charges && p.value.purchaseId == id)
      && (p.None? ==> forall c :: c in charges ==> c.purchaseId != id)
  {
  }

  /** GetIntentRecovery: both reads come from one snapshot; None is "not found". */
  function IntentRecovery(s: System, owner: string, intent: string): Option<Answer> {
    var row := ReadIntent(s.rows, owner, intent);
    var p := FindCharge(s.charges, owner, intent);
    if row.None? && p.None? then None else Some(RecoveryResponse(row, p, s.now))
  }

  /** GetPurchaseRecovery: the charge is read first, the evidence about its
      intent in a later snapshot. */
  function PurchaseRecovery(first: System, second: System, id: PurchaseId): Option<Answer> {
    var p := FindById(first.charges, id);
    if p.None? then None
    else if p.value.intent.None? then Some(RecoveryResponse(None, p, second.now))
    else
      var row := ReadIntent(second.rows, p.value.userId, p.value.intent.value);
      var indexed := FindCharge(second.charges, p.value.userId, p.value.intent.value);
      var answer := RecoveryResponse(row, p, second.now);
      Some(if indexed.None? || indexed.value.purchaseId != p.value.purchaseId
           then answer.(status := StatusUnknown, resolution := EvidenceConflict) else answer)
  }

  /** The committed charges of an intent. */
  ghost predicate Committed(s: System, owner: string, intent: string) {
    exists j :: 0 <= j < |s.charges| && IsFor(s.charges[j], owner, intent)
  }

  lemma ChargeAgreesWithRow(s: System, c: Charge, anyEscrow: EscrowColumns)
    requires Inv(s) && ChargeOk(s, c) && c.intent.Some?
    ensures var row := ReadIntent(s.rows, c.userId, c.intent.value);
      && row.Some? && row.value.intent.value.state == Recorded && c.operation == Some(PURCHASE_OPERATION)
      && c.purchaseId == Issued(row.value.intent.value.token)
      && !Conflicting(row.value.intent.value, c.(escrow := anyEscrow))
  {
    assert RowOk(s, KeyOf(s, c.purchaseId.token));
  }

  lemma CommittedChargeAgrees(s: System, j: nat)
    requires Reachable(s) && j < |s.charges| && s.charges[j].intent.Some?
    ensures var c := s.charges[j];
      var row := ReadIntent(s.rows, c.userId, c.intent.value);
      row.Some? && !Conflicting(row.value.intent.value, c)
  {
    ReachableInv(s);
    assert ChargeOk(s, s.charges[j]);
    ChargeAgreesWithRow(s, s.charges[j], s.charges[j].escrow);
  }

  /** Recovery never contradicts itself, says "recorded" exactly when the charge
      is committed, and says "not charged" only when the provider never was
      called for that intent. */
  lemma IntentRecoveryIsSound(s: System, owner: string, intent: string)
    requires Reachable(s) && IntentRecovery(s, owner, intent).Some?
    ensures var answer := IntentRecovery(s, owner, intent).value;
      && answer.resolution != EvidenceConflict
      && (answer.status == StatusRecorded <==> Committed(s, owner, intent))
      && (answer.status == StatusNotCharged ==> forall j :: 0 <= j < |s.calls| ==>
          s.calls[j].providerKey != IntentKey(owner, intent))
  {
    FoundCharge(s.charges, owner, intent);
    var p := FindCharge(s.charges, owner, intent);
    var key := IntentKey(owner, intent);
    if p.Some? {
      var j :| 0 <= j < |s.charges| && s.charges[j] == p.value;
      CommittedChargeAgrees(s, j);
    } else if key in s.rows && IsPurchase(s.rows[key]) && s.rows[key].intent.value.state == NotCharged {
      NotChargedWasNeverCalled(s, key);
    }
  }

  /** The same through the purchase id, with any amount of activity, OpenEscrow
      included, between its two reads. */
  lemma PurchaseRecoveryIsSound(s: System, actions: seq<Action>, id: PurchaseId)
    requires Reachable(s) && PurchaseRecovery(s, Run(s, actions), id).Some?
    ensures exists j ::
      && 0 <= j < |s.charges| && s.charges[j].purchaseId == id
      && PurchaseRecovery(s, Run(s, actions), id).value
         == Answer(StatusRecorded, FinancialVerificationRequired, s.charges[j].intent, Some(s.charges[j]), None)
  {
    ReachableInv(s);
    var t := Run(s, actions);
    RunEvolves(s, actions);
    FoundById(s.charges, id);
    var p := FindById(s.charges, id).value;
    var j :| 0 <= j < |s.charges| && s.charges[j] == p;
    var now := t.charges[j];
    assert p == now.(escrow := p.escrow);
    assert ChargeOk(t, now);
    if p.intent.Some? {
      ChargeAgreesWithRow(t, now, p.escrow);
      FoundCharge(t.charges, p.userId, p.intent.value);
      assert now in t.charges;
      var indexed := FindCharge(t.charges, p.userId, p.intent.value).value;
      var i :| 0 <= i < |t.charges| && t.charges[i] == indexed;
      assert ChargeOk(t, indexed);
      ChargeAgreesWithRow(t, indexed, indexed.escrow);
    }
  }

  // ---- Repeats ----

  /** The answer to a copy of a row, by what the table holds and by the time. */
  lemma ReplayOfCopy(s: System, pid: Token, copy: Row)
    requires Inv(s) && pid in s.requests && CopyOk(s, s.requests[pid], copy)
    ensures var key := KeyOf(s, pid);
      var row := s.rows[key].intent.value;
      var read := copy.intent.value;
      ReplayIntent(copy, RequestHash(s.requests[pid].input), s.now) ==
        if row.requestHash != RequestHash(s.requests[pid].input) then Refused(TermsConflict, None)
        else if read.state in {Recorded, NotCharged} then
          if s.now < read.responseExpiresAt.value then Replayed(s.written[key])
          else Refused(ResultBodyExpired, if read.state == Recorded then Some(Issued(read.token)) else None)
        else if read.state in {Reserved, Executing} && s.now < row.leaseUntil then Refused(IntentInProgress, None)
        else Refused(ReconciliationRequired, None)
  {
    assert RowOk(s, KeyOf(s, pid));
  }

  /** The answer a repeated request gets, at the moment it is given: the terms
      conflict exactly when its terms differ; the stored bytes exactly when the
      terms agree, the row it read was finished and its retention lasts; "in
      progress" exactly while the lease of an unfinished one lasts. It calls nobody
      and changes nothing. */
  lemma ReplayAnswersFromTheRecord(s: System, pid: Token)
    requires Reachable(s) && pid in s.requests && s.requests[pid].pc.AtReplay?
    ensures var t := Apply(s, AnswerReplay(pid));
      var key := KeyOf(s, pid);
      && t.calls == s.calls && t.rows == s.rows && t.charges == s.charges
      && key in s.rows && IsPurchase(s.rows[key]) && s.requests[pid].pc.copy.intent.Some?
      && var row, read := s.rows[key].intent.value, s.requests[pid].pc.copy.intent.value;
         && (read.state in {Recorded, NotCharged} ==> read.responseExpiresAt.Some? && key in s.written)
         && t.requests[pid].pc == Ended(
              if row.requestHash != RequestHash(s.requests[pid].input) then Refused(TermsConflict, None)
              else if read.state in {Recorded, NotCharged} then
                if s.now < read.responseExpiresAt.value then Replayed(s.written[key])
                else Refused(ResultBodyExpired, if read.state == Recorded then Some(Issued(read.token)) else None)
              else if read.state in {Reserved, Executing} && s.now < row.leaseUntil then Refused(IntentInProgress, None)
              else Refused(ReconciliationRequired, None))
  {
    ReachableInv(s);
    assert RequestOk(s, pid);
    ReplayOfCopy(s, pid, s.requests[pid].pc.copy);
  }

  /** The statements of an undisturbed repeat; the fourth only acts on a body
      whose retention has passed. */
  function Repeat(pid: Token, input: Input): seq<Action> {
    [Begin(pid, input), Insert(pid, Acked), ReadBack(pid, true), DropExpiredBody(pid, Acked), AnswerReplay(pid)]
  }

  /** The row without a body whose retention has passed. */
  function LivingCopy(row: Row, now: Time): Row {
    if BodyExpired(row, now) then row.(body := None) else row
  }

  lemma RunStep(s: System, a: Action, rest: seq<Action>)
    ensures Run(s, [a] + rest) == Run(Apply(s, a), rest)
  {
    assert ([a] + rest)[1..] == rest;
  }

  lemma RunFive(s: System, a: Action, b: Action, c: Action, d: Action, e: Action)
    ensures Run(s, [a, b, c, d, e]) == Apply(Apply(Apply(Apply(Apply(s, a), b), c), d), e)
  {
    var none: seq<Action> := [];
    assert [a, b, c, d, e] == [a] + ([b] + ([c] + ([d] + ([e] + none))));
    RunStep(s, a, [b] + ([c] + ([d] + ([e] + none))));
    RunStep(Apply(s, a), b, [c] + ([d] + ([e] + none)));
    RunStep(Apply(Apply(s, a), b), c, [d] + ([e] + none));
    RunStep(Apply(Apply(Apply(s, a), b), c), d, [e] + none);
    RunStep(Apply(Apply(Apply(Apply(s, a), b), c), d), e, none);
  }

  lemma RepeatLoses(s: System, pid: Token, input: Input, copy: Row)
    requires pid !in s.requests && ReadIntent(s.rows, input.userId, input.intent) == Some(copy)
    ensures var t := Apply(Apply(s, Begin(pid, input)), Insert(pid, Acked));
            && t.rows == s.rows && t.now == s.now && t.calls == s.calls && t.charges == s.charges
            && At(t, pid, AtReadBack) && t.requests[pid].input == input
  {
  }

  lemma RepeatReads(s: System, pid: Token, input: Input, copy: Row)
    requires At(s, pid, AtReadBack) && s.requests[pid].input == input
    requires ReadIntent(s.rows, input.userId, input.intent) == Some(copy) && copy.intent.value.token != pid
    ensures var t := Apply(Apply(s, ReadBack(pid, true)), DropExpiredBody(pid, Acked));
            && t.now == s.now && t.calls == s.calls && t.charges == s.charges
            && t.rows == s.rows[InputKey(input) := LivingCopy(copy, s.now)]
            && At(t, pid, AtReplay(LivingCopy(copy, s.now))) && t.requests[pid].input == input
  {
  }

  lemma RunRepeat(s: System, pid: Token, input: Input, copy: Row)
    requires pid !in s.requests && ReadIntent(s.rows, input.userId, input.intent) == Some(copy)
    requires copy.intent.value.token != pid
    ensures var t := Run(s, Repeat(pid, input));
            && pid in t.requests && t.calls == s.calls && t.charges == s.charges
            && t.rows == s.rows[InputKey(input) := LivingCopy(copy, s.now)]
            && t.requests[pid].pc == Ended(ReplayIntent(LivingCopy(copy, s.now), RequestHash(input), s.now))
  {
    RepeatLoses(s, pid, input, copy);
    RepeatReads(Apply(Apply(s, Begin(pid, input)), Insert(pid, Acked)), pid, input, copy);
    RunFive(s, Begin(pid, input), Insert(pid, Acked), ReadBack(pid, true), DropExpiredBody(pid, Acked),
      AnswerReplay(pid));
  }

  lemma LivingCopyReplays(s: System, key: Key, terms: Terms)
    requires Inv(s) && key in s.rows && IsPurchase(s.rows[key])
    ensures var i := s.rows[key].intent.value;
      && (i.state in {Recorded, NotCharged} ==> i.responseExpiresAt.Some? && key in s.written)
      && ReplayIntent(LivingCopy(s.rows[key], s.now), terms, s.now) ==
           if i.requestHash != terms then Refused(TermsConflict, None)
           else if i.state in {Recorded, NotCharged} then
             if s.now < i.responseExpiresAt.value then Replayed(s.written[key])
             else Refused(ResultBodyExpired, if i.state == Recorded then Some(Issued(i.token)) else None)
           else if i.state in {Reserved, Executing} && s.now < i.leaseUntil then Refused(IntentInProgress, None)
           else Refused(ReconciliationRequired, None)
  {
    assert RowOk(s, key);
  }

  lemma UnfinishedHasNoCharge(s: System, key: Key)
    requires Inv(s) && key in s.rows && IsPurchase(s.rows[key]) && s.rows[key].intent.value.state != Recorded
    ensures var i := s.rows[key].intent.value; FindCharge(s.charges, i.owner, i.intent).None?
  {
    var i := s.rows[key].intent.value;
    assert RowOk(s, key);
    FoundCharge(s.charges, i.owner, i.intent);
    var p := FindCharge(s.charges, i.owner, i.intent);
    if p.Some? {
      var j :| 0 <= j < |s.charges| && s.charges[j] == p.value;
      assert ChargeOk(s, s.charges[j]);
      ChargeAgreesWithRow(s, s.charges[j], s.charges[j].escrow);
    }
  }

  /** Recovery of an unfinished intent: in progress exactly while its lease lasts. */
  lemma ProgressIsTheLease(s: System, key: Key)
    requires Inv(s) && key in s.rows && IsPurchase(s.rows[key]) && s.rows[key].intent.value.state != Recorded
    ensures var i := s.rows[key].intent.value;
      var recovered := IntentRecovery(s, i.owner, i.intent);
      && key == IntentKey(i.owner, i.intent) && recovered.Some?
      && (recovered.value.status == StatusInProgress <==> i.state in {Reserved, Executing} && s.now < i.leaseUntil)
  {
    assert RowOk(s, key);
    UnfinishedHasNoCharge(s, key);
  }

  /** An undisturbed repeat: with other terms it always gets the conflict; with the
      same terms the very bytes the finished run stored until they expire, "in
      progress" exactly while recovery says so, and else that it needs
      reconciliation. The provider is not called again, and nothing changes but that a
      body past its retention is dropped. */
  lemma RepeatGetsTheStoredBody(s: System, pid: Token, input: Input)
    requires Reachable(s) && pid !in s.requests
    requires InputKey(input) in s.rows && IsPurchase(s.rows[InputKey(input)])
    ensures var key := InputKey(input);
      var i := s.rows[key].intent.value;
      var t := Run(s, Repeat(pid, input));
      var recovered := IntentRecovery(s, input.userId, input.intent);
      && t.calls == s.calls && t.charges == s.charges && pid in t.requests && recovered.Some?
      && t.rows == s.rows[key := LivingCopy(s.rows[key], s.now)]
      && (i.state in {Recorded, NotCharged} ==> i.responseExpiresAt.Some? && key in s.written)
      && t.requests[pid].pc == Ended(
           if i.requestHash != RequestHash(input) then Refused(TermsConflict, None)
           else if i.state in {Recorded, NotCharged} then
             if s.now < i.responseExpiresAt.value then Replayed(s.written[key])
             else Refused(ResultBodyExpired, if i.state == Recorded then Some(Issued(i.token)) else None)
           else if recovered.value.status == StatusInProgress then Refused(IntentInProgress, None)
           else Refused(ReconciliationRequired, None))
  {
    ReachableInv(s);
    var key := InputKey(input);
    assert RowOk(s, key);
    RunRepeat(s, pid, input, s.rows[key]);
    LivingCopyReplays(s, key, RequestHash(input));
    if !(s.rows[key].intent.value.state in {Recorded, NotCharged}) { ProgressIsTheLease(s, key); }
  }
}
