/** What a charge says about its payment, and what one call of CreatePurchaseCharge
    answers and leaves behind, whatever the database loses or refuses. */
module ChargeAnswers {
  import opened Common
  import opened PurchaseTypes
  import opened IdempotencyTable
  import opened Recovery
  import opened ChargeProtocol
  import opened ChargeInvariant
  import opened ChargeSteps
  import opened ChargeTheorems
  import opened ChargeService

  /** In every run at all: a charge is recorded only for a payment that the provider,
      called by the holder of its reservation, answered as succeeded; its row holds
      that observation and the very terms of the charge. */
  lemma ChargesArePaid(s: System, j: nat)
    requires Reachable(s) && j < |s.charges| && s.charges[j].purchaseId.Issued?
    ensures var c := s.charges[j];
      var key := IntentKey(c.userId, TextOf(c.intent));
      && c.intent.Some? && c.paymentIntent != ""
      && key in s.rows && IsPurchase(s.rows[key])
      && var i := s.rows[key].intent.value;
         && i.state == Recorded && i.purchaseId == Some(c.purchaseId) && i.token == c.purchaseId.token
         && i.paymentIntent == Some(c.paymentIntent) && i.paymentStatus == Some("succeeded")
         && c.requestHash == Some(i.requestHash)
         && exists k :: 0 <= k < |s.calls| && s.calls[k].caller == i.token && s.calls[k].providerKey == key
              && s.calls[k].answer == ProviderIntent(c.paymentIntent, "succeeded")
  {
    ReachableInv(s);
    var c := s.charges[j];
    assert ChargeOk(s, c);
    var key := KeyOf(s, c.purchaseId.token);
    assert RowOk(s, key);
    var k :| 0 <= k < |s.calls| && s.calls[k].caller == c.purchaseId.token
      && s.calls[k].answer == ProviderIntent(c.paymentIntent, "succeeded");
  }

  // ---- The outcome of one call, written out ----

  /** The provider named a payment. */
  predicate Named(o: Outcomes) {
    o.provider.ProviderIntent? && o.provider.id != ""
  }

  /** Another purchase was told of that payment. */
  predicate Elsewhere(s: System, o: Outcomes) {
    Named(o)
    && (exists k | k in s.rows :: IsPurchase(s.rows[k])
          && s.rows[k].intent.value.paymentIntent == Some(o.provider.id))
  }

  /** Or has recorded it. */
  predicate Taken(s: System, o: Outcomes) {
    Elsewhere(s, o) || (Named(o) && exists c | c in s.charges :: c.paymentIntent == o.provider.id)
  }

  /** The call got as far as the provider. */
  predicate Reaches(o: Outcomes) {
    o.insert == Acked && o.readBack && o.recheck && o.prepared && o.mark == Acked
  }

  /** The payment is observed in the row, whether or not that is heard of. */
  predicate Notes(s: System, o: Outcomes) {
    Reaches(o) && Named(o) && !Elsewhere(s, o) && o.observe != Rejected
  }

  /** The payment is this purchase's own and succeeded and, with a chip, the escrow
      was accepted. */
  predicate Pays(s: System, input: Input, o: Outcomes) {
    && Reaches(o) && Named(o) && o.observe == Acked && o.lookup && !Taken(s, o)
    && o.provider.status == "succeeded" && (input.chipId != "" ==> o.escrow)
  }

  /** The charge goes to the table, heard of or not. */
  predicate Charges(s: System, input: Input, o: Outcomes) {
    Pays(s, input, o) && o.complete != Rejected
  }

  /** The code of a call that fails after the effect flag was set. */
  function FailureCode(s: System, o: Outcomes): Code {
    if || (Elsewhere(s, o) && o.observe != Rejected && Reaches(o))
       || (Taken(s, o) && o.observe == Acked && o.lookup && Reaches(o))
    then PaymentIntentConflict else ReconciliationRequired
  }

  /** The charge, every column written out; with a chip its escrow is already being
      opened. */
  function ExpectedCharge(s: System, pid: Token, input: Input, o: Outcomes): Charge
    requires o.provider.ProviderIntent?
  {
    Charge(|s.charges| + 1, Issued(pid), input.userId, Some(PURCHASE_OPERATION), Some(input.intent),
           Some(RequestHash(input)), Some(1), o.provider.id, o.amounts,
           if input.chipId == "" then EscrowColumns(PaidPendingEscrow, None, "", input.nonce, "")
           else EscrowColumns(EscrowOpening, o.job, input.chipId, input.nonce, ""))
  }

  function ExpectedReply(s: System, pid: Token, input: Input, o: Outcomes): Reply {
    if o.insert != Acked || !o.readBack then Refused(ReservationUnavailable, None)
    else if !o.recheck then Failed(LookupUnavailable, None)
    else if !o.prepared && o.fail == Acked then
      Failed(NotChargedCode, Some(ErrorBody(503, NotChargedCode, input.intent)))
    else if Pays(s, input, o) && o.complete == Acked then Completed(ChargeBody(ExpectedCharge(s, pid, input, o)))
    else Failed(if o.fail == Acked then FailureCode(s, o) else ReconciliationRequired, None)
  }

  /** A row without an outcome yet. */
  function OpenRow(i: Intent): Row {
    Row(None, 0, "", None, false, Some(i))
  }

  function Reserved0(s: System, pid: Token, input: Input): Intent {
    Intent(input.userId, input.intent, RequestHash(input), 1, Reserved, pid, s.now + s.lease, false, None, None, None,
           input.customer, None, None)
  }

  /** The row as far as the call got with it. */
  function Progress(s: System, pid: Token, input: Input, o: Outcomes): Intent {
    var i := Reserved0(s, pid, input);
    if o.insert != Acked || !o.readBack || !o.recheck || !o.prepared || o.mark == Rejected then i
    else
      var j := i.(state := Executing, effect := true);
      if Notes(s, o) then j.(paymentIntent := Some(o.provider.id), paymentStatus := Some(o.provider.status)) else j
  }

  /** The row after the failure writes: the first that is not refused counts. */
  function Uncertain(i: Intent, code: Code, o: Outcomes): Intent {
    if o.fail != Rejected then i.(state := Unknown, errorCode := Some(code))
    else if o.secondFail != Rejected then i.(state := Unknown, errorCode := Some(ReconciliationRequired))
    else i
  }

  /** The row of a call that stopped before the provider. */
  function CleanRow(s: System, i: Intent, input: Input): Row {
    Row(None, 503, "application/json", Some(ErrorBody(503, NotChargedCode, input.intent)), true,
        Some(i.(state := NotCharged, errorCode := Some(NotChargedCode),
                responseExpiresAt := Some(s.now + s.retention))))
  }

  /** The recorded row, from the open one. */
  function RecordedRow(i: Intent, charge: Charge, expires: Time): Row {
    Row(None, 201, "application/json", Some(ChargeBody(charge)), true,
        Some(i.(state := Recorded, purchaseId := Some(charge.purchaseId), responseExpiresAt := Some(expires))))
  }

  function ExpectedRow(s: System, pid: Token, input: Input, o: Outcomes): Row {
    var i := Progress(s, pid, input, o);
    if o.insert != Acked || !o.readBack then OpenRow(i)
    else if !o.recheck then
      OpenRow(if o.abandon == Rejected then i else i.(state := Unknown, errorCode := Some(LookupUnavailable)))
    else if !o.prepared && o.fail != Rejected then CleanRow(s, i, input)
    else if Charges(s, input, o) then RecordedRow(i, ExpectedCharge(s, pid, input, o), s.now + s.retention)
    else OpenRow(Uncertain(i, FailureCode(s, o), o))
  }

  /** Everything a call that ends there leaves. */
  ghost predicate Leaves(s: System, t: System, pid: Token, input: Input, o: Outcomes) {
    && t.rows == (if o.insert == Rejected then s.rows else s.rows[InputKey(input) := ExpectedRow(s, pid, input, o)])
    && t.charges == s.charges + (if Charges(s, input, o) then [ExpectedCharge(s, pid, input, o)] else [])
    && t.calls == s.calls + (if Reaches(o) then [StripeCall(pid, InputKey(input), o.provider)] else [])
    && pid in t.requests && t.requests[pid].pc == Ended(ExpectedReply(s, pid, input, o))
  }

  // ---- Stage by stage ----

  /** The call has its row and has charged nothing yet. */
  ghost predicate Holds(s: System, t: System, pid: Token, input: Input, i: Intent) {
    && t.rows == s.rows[InputKey(input) := OpenRow(i)] && i.token == pid
    && t.charges == s.charges && t.now == s.now && t.lease == s.lease && t.retention == s.retention
    && pid in t.requests && t.requests[pid].input == input
  }

  lemma Reserves(s: System, pid: Token, input: Input, o: Outcomes)
    requires pid !in s.requests && InputKey(input) !in s.rows
    ensures var t := Run(s, ReserveScript(pid, input, o));
      if o.insert == Acked && o.readBack then
        Holds(s, t, pid, input, Reserved0(s, pid, input)) && t.calls == s.calls && t.requests[pid].pc == AtRecheck
      else Leaves(s, t, pid, input, o)
  {
    RunThree(s, Begin(pid, input), Insert(pid, o.insert), ReadBack(pid, o.readBack));
    InsertedIs(s, pid, input, o.insert);
    var u := Apply(Apply(s, Begin(pid, input)), Insert(pid, o.insert));
    assert InsertIntent(s.rows, input, pid, s.now + s.lease)
      == s.rows[InputKey(input) := OpenRow(Reserved0(s, pid, input))];
    if o.insert == Acked {
      ReadsBack(s, u, pid, input, o.readBack);
    } else {
      EndedNoop(u, ReadBack(pid, o.readBack));
    }
    if o.insert != Acked || !o.readBack { NotBegun(s, pid, input, o); }
  }

  lemma ReadsBack(s: System, u: System, pid: Token, input: Input, ok: bool)
    requires Holds(s, u, pid, input, Reserved0(s, pid, input)) && u.requests[pid].pc == AtReadBack
    ensures Apply(u, ReadBack(pid, ok))
      == Goto(u, pid, if ok then AtRecheck else Ended(Refused(ReservationUnavailable, None)))
  {
  }

  lemma NotBegun(s: System, pid: Token, input: Input, o: Outcomes)
    requires o.insert != Acked || !o.readBack
    ensures !Charges(s, input, o) && !Reaches(o)
    ensures ExpectedRow(s, pid, input, o) == OpenRow(Reserved0(s, pid, input))
    ensures ExpectedReply(s, pid, input, o) == Refused(ReservationUnavailable, None)
  {
  }

  lemma NoEarlierObligation(s: System, input: Input)
    requires Inv(s) && InputKey(input) !in s.rows
    ensures FindCharge(s.charges, input.userId, input.intent).None?
  {
    FoundCharge(s.charges, input.userId, input.intent);
    var p := FindCharge(s.charges, input.userId, input.intent);
    if p.Some? {
      var j :| 0 <= j < |s.charges| && s.charges[j] == p.value;
      assert ChargeOk(s, s.charges[j]);
      ChargeAgreesWithRow(s, s.charges[j], s.charges[j].escrow);
    }
  }

  lemma FindsNone(t: System, pid: Token, o: Outcomes)
    requires At(t, pid, AtRecheck) && o.recheck
    requires FindCharge(t.charges, t.requests[pid].input.userId, t.requests[pid].input.intent).None?
    ensures var u := Apply(t, Recheck(pid, o.recheck));
      u == Goto(t, pid, AtPrepare) && Apply(u, Abandon(pid, o.abandon)) == u
  {
  }

  lemma Rechecks(s: System, t: System, pid: Token, input: Input, o: Outcomes)
    requires Inv(s) && InputKey(input) !in s.rows && o.insert == Acked && o.readBack
    requires Holds(s, t, pid, input, Reserved0(s, pid, input)) && t.calls == s.calls && t.requests[pid].pc == AtRecheck
    ensures var u := Run(t, RecheckScript(pid, o));
      if o.recheck then
        Holds(s, u, pid, input, Reserved0(s, pid, input)) && u.calls == s.calls && u.requests[pid].pc == AtPrepare
      else Leaves(s, u, pid, input, o)
  {
    RunTwo(t, Recheck(pid, o.recheck), Abandon(pid, o.abandon));
    NoEarlierObligation(s, input);
    if o.recheck { FindsNone(t, pid, o); }
  }

  function Marked(i: Intent, o: Outcomes): Intent {
    if o.mark == Rejected then i else i.(state := Executing, effect := true)
  }

  lemma Marks(s: System, t: System, pid: Token, input: Input, i: Intent, o: Outcomes)
    requires Holds(s, t, pid, input, i) && i.state == Reserved && t.requests[pid].pc == AtPrepare
    ensures var u := Run(t, MarkScript(pid, o));
      && u.calls == t.calls && Holds(s, u, pid, input, if o.prepared then Marked(i, o) else i)
      && (if !o.prepared then u.requests[pid].pc == AtFail(false, NotChargedCode)
          else if o.mark != Acked then u.requests[pid].pc == AtFail(true, ReconciliationRequired)
          else u.requests[pid].pc == AtStripe && u.requests[pid].amounts == o.amounts)
  {
    RunTwo(t, Prepare(pid, o.prepared, o.amounts), Mark(pid, o.mark));
    if o.prepared { MarksOnce(s, Apply(t, Prepare(pid, o.prepared, o.amounts)), pid, input, i, o); }
  }

  lemma MarksOnce(s: System, t: System, pid: Token, input: Input, i: Intent, o: Outcomes)
    requires Holds(s, t, pid, input, i) && i.state == Reserved && t.requests[pid].pc == AtMark
    ensures var u := Apply(t, Mark(pid, o.mark));
      && u.calls == t.calls && Holds(s, u, pid, input, Marked(i, o))
      && u.requests[pid] == t.requests[pid].(pc :=
           if o.mark == Acked then AtStripe else AtFail(true, ReconciliationRequired))
  {
  }

  function Noted(s: System, i: Intent, o: Outcomes): Intent {
    if Named(o) && !Elsewhere(s, o) && o.observe != Rejected
    then i.(paymentIntent := Some(o.provider.id), paymentStatus := Some(o.provider.status)) else i
  }

  lemma Calls(s: System, t: System, pid: Token, input: Input, i: Intent, o: Outcomes)
    requires Reaches(o) && InputKey(input) !in s.rows && Holds(s, t, pid, input, i)
    requires i.state == Executing && i.paymentIntent.None?
    requires t.requests[pid].pc == AtStripe && t.requests[pid].amounts == o.amounts
    ensures var u := Run(t, CallScript(pid, o));
      && Holds(s, u, pid, input, Noted(s, i, o)) && u.calls == t.calls + [StripeCall(pid, InputKey(input), o.provider)]
      && (if Named(o) && o.observe == Acked && !Elsewhere(s, o)
          then u.requests[pid] == Request(input, o.amounts, o.provider.id, AtLookup(o.provider.status))
          else u.requests[pid].pc == AtFail(true, FailureCode(s, o)))
  {
    RunTwo(t, CallStripe(pid, o.provider), ObserveIntent(pid, o.observe));
    if Named(o) {
      DuplicateAmongOthers(s, t, pid, input, i, o);
      ObservesOrFails(s, Apply(t, CallStripe(pid, o.provider)), pid, input, i, o);
    }
  }

  lemma DuplicateAmongOthers(s: System, t: System, pid: Token, input: Input, i: Intent, o: Outcomes)
    requires Named(o) && InputKey(input) !in s.rows && Holds(s, t, pid, input, i)
    ensures DuplicatePayment(t.rows, InputKey(input), Change.Observe(o.provider.id, o.provider.status))
      <==> Elsewhere(s, o)
  {
    if Elsewhere(s, o) {
      var k :| k in s.rows && IsPurchase(s.rows[k]) && s.rows[k].intent.value.paymentIntent == Some(o.provider.id);
      assert k != InputKey(input) && t.rows[k] == s.rows[k];
    }
  }

  lemma ObservesOrFails(s: System, t: System, pid: Token, input: Input, i: Intent, o: Outcomes)
    requires Named(o) && Holds(s, t, pid, input, i) && i.state == Executing
    requires t.requests[pid] == Request(input, o.amounts, o.provider.id, AtObserve(o.provider.status))
    requires DuplicatePayment(t.rows, InputKey(input), Change.Observe(o.provider.id, o.provider.status))
      <==> Elsewhere(s, o)
    ensures var u := Apply(t, ObserveIntent(pid, o.observe));
      && Holds(s, u, pid, input, Noted(s, i, o)) && u.calls == t.calls
      && u.requests[pid] == t.requests[pid].(pc :=
           if o.observe == Rejected then AtFail(true, ReconciliationRequired)
           else if Elsewhere(s, o) then AtFail(true, PaymentIntentConflict)
           else if o.observe == Acked then AtLookup(o.provider.status)
           else AtFail(true, ReconciliationRequired))
  {
  }

  lemma {:induction false} ByPayment(charges: seq<Charge>, pi: string)
    ensures var p := FindByPayment(charges, pi);
      && (p.Some? ==> p.value in charges && p.value.paymentIntent == pi)
      && (p.None? ==> forall c :: c in charges ==> c.paymentIntent != pi)
    decreases |charges|
  {
    if charges != [] { ByPayment(charges[1..], pi); }
  }

  /** A charge of the payment, if any, is someone else's. */
  lemma FoundPayment(s: System, input: Input, pi: string)
    requires Inv(s) && InputKey(input) !in s.rows
    ensures var p := FindByPayment(s.charges, pi);
      && (p.Some? <==> exists c :: c in s.charges && c.paymentIntent == pi)
      && (p.Some? ==> !SameObligation(p.value, input))
  {
    ByPayment(s.charges, pi);
    var p := FindByPayment(s.charges, pi);
    if p.Some? {
      var j :| 0 <= j < |s.charges| && s.charges[j] == p.value;
      assert ChargeOk(s, s.charges[j]);
      if s.charges[j].intent.Some? { ChargeAgreesWithRow(s, s.charges[j], s.charges[j].escrow); }
    }
  }

  lemma LooksUp(s: System, t: System, pid: Token, input: Input, i: Intent, o: Outcomes)
    requires Named(o) && Holds(s, t, pid, input, i)
    requires t.requests[pid] == Request(input, o.amounts, o.provider.id, AtLookup(o.provider.status))
    requires var p := FindByPayment(s.charges, o.provider.id);
      (p.Some? <==> Taken(s, o)) && (p.Some? ==> !SameObligation(p.value, input))
    ensures Apply(t, LookupIntent(pid, o.lookup)) ==
      Goto(t, pid,
           if !o.lookup then AtFail(true, ReconciliationRequired)
           else if Taken(s, o) then AtFail(true, PaymentIntentConflict)
           else if o.provider.status != "succeeded" then AtFail(true, ReconciliationRequired)
           else if input.chipId != "" then AtEscrow
           else AtComplete(ExpectedCharge(s, pid, input, o).(id := 0), true))
  {
  }

  lemma Chooses(s: System, t: System, pid: Token, input: Input, i: Intent, o: Outcomes)
    requires Inv(s) && InputKey(input) !in s.rows && Reaches(o) && Named(o) && o.observe == Acked && !Elsewhere(s, o)
    requires Holds(s, t, pid, input, i)
    requires t.requests[pid] == Request(input, o.amounts, o.provider.id, AtLookup(o.provider.status))
    ensures var u := Run(t, RecordScript(pid, o));
      && Holds(s, u, pid, input, i) && u.calls == t.calls
      && u.requests[pid].pc == (if Pays(s, input, o)
                                then AtComplete(ExpectedCharge(s, pid, input, o).(id := 0), true)
                                else AtFail(true, FailureCode(s, o)))
  {
    RunTwo(t, LookupIntent(pid, o.lookup), SubmitEscrow(pid, o.escrow, o.job));
    FoundPayment(s, input, o.provider.id);
    LooksUp(s, t, pid, input, i, o);
  }

  // ---- The last stage ----

  ghost predicate EndsWith(t: System, u: System, pid: Token, row: Row, added: seq<Charge>, reply: Reply)
    requires pid in t.requests
  {
    && u.rows == t.rows[KeyOf(t, pid) := row] && u.charges == t.charges + added && u.calls == t.calls
    && pid in u.requests && u.requests[pid].pc == Ended(reply)
  }

  lemma UncertainWrite(s: System, t: System, pid: Token, input: Input, i: Intent, code: Code, write: Write)
    requires Holds(s, t, pid, input, i)
    ensures var key := InputKey(input);
      Cas(t.rows, key, pid, FailUncertain(code), write) ==
        if write == Rejected then (t.rows, DatabaseError)
        else if !(i.state in {Reserved, Executing}) then (t.rows, if write == Unacked then DatabaseError else NotOwner)
        else (t.rows[key := OpenRow(i.(state := Unknown, errorCode := Some(code)))],
              if write == Unacked then DatabaseError else Updated)
  {
  }

  /** The failure writes of a call with the effect flag set. */
  lemma FailsTwice(s: System, t: System, pid: Token, input: Input, i: Intent, code: Code, o: Outcomes)
    requires Holds(s, t, pid, input, i) && i.state in {Reserved, Executing} && t.requests[pid].pc == AtFail(true, code)
    ensures EndsWith(t, Apply(Apply(t, Fail(pid, o.fail)), SecondFail(pid, o.secondFail)), pid,
                     OpenRow(Uncertain(i, code, o)), [],
                     Failed(if o.fail == Acked then code else ReconciliationRequired, None))
  {
    UncertainFailIs(t, pid, o.fail);
    UncertainWrite(s, t, pid, input, i, code, o.fail);
    var u := Apply(t, Fail(pid, o.fail));
    if o.fail == Acked {
      EndedNoop(u, SecondFail(pid, o.secondFail));
    } else if o.fail == Rejected {
      SecondFailIs(u, pid, o.secondFail);
      UncertainWrite(s, u, pid, input, i, ReconciliationRequired, o.secondFail);
    } else {
      SecondFailIs(u, pid, o.secondFail);
      FinishedRefuses(u.rows, KeyOf(u, pid), pid, o.secondFail);
    }
  }

  lemma FinishedRefuses(rows: Rows, key: Key, pid: Token, write: Write)
    requires !Owns(rows, key, pid, {Reserved, Executing})
    ensures Cas(rows, key, pid, FailUncertain(ReconciliationRequired), write).0 == rows
    ensures Cas(rows, key, pid, FailUncertain(ReconciliationRequired), write).1 != Updated
  {
  }

  lemma SkipsComplete(t: System, pid: Token, o: Outcomes)
    requires pid in t.requests && t.requests[pid].pc.AtFail?
    ensures Run(t, DeferScript(pid, o)) == Apply(Apply(t, Fail(pid, o.fail)), SecondFail(pid, o.secondFail))
  {
    RunThree(t, Complete(pid, o.complete), Fail(pid, o.fail), SecondFail(pid, o.secondFail));
  }

  lemma CleanWriteIs(s: System, t: System, pid: Token, input: Input, i: Intent, write: Write)
    requires Holds(s, t, pid, input, i) && i.state == Reserved
    ensures var key := InputKey(input);
      Cas(t.rows, key, pid, FailClean(NotChargedCode, 503, CleanBody(input), t.now + t.retention), write) ==
        if write == Rejected then (t.rows, DatabaseError)
        else (t.rows[key := CleanRow(s, i, input)], if write == Unacked then DatabaseError else Updated)
  {
  }

  lemma DefersCleanly(s: System, t: System, pid: Token, input: Input, i: Intent, o: Outcomes)
    requires Holds(s, t, pid, input, i) && i.state == Reserved && t.requests[pid].pc == AtFail(false, NotChargedCode)
    ensures EndsWith(t, Run(t, DeferScript(pid, o)), pid,
                     if o.fail == Rejected then OpenRow(Uncertain(i, ReconciliationRequired, o))
                     else CleanRow(s, i, input), [],
                     if o.fail == Acked then Failed(NotChargedCode, Some(ErrorBody(503, NotChargedCode, input.intent)))
                     else Failed(ReconciliationRequired, None))
  {
    SkipsComplete(t, pid, o);
    CleanFailIs(t, pid, o.fail);
    CleanWriteIs(s, t, pid, input, i, o.fail);
    var u := Apply(t, Fail(pid, o.fail));
    if o.fail == Acked {
      EndedNoop(u, SecondFail(pid, o.secondFail));
    } else if o.fail == Rejected {
      SecondFailIs(u, pid, o.secondFail);
      UncertainWrite(s, u, pid, input, i, ReconciliationRequired, o.secondFail);
    } else {
      SecondFailIs(u, pid, o.secondFail);
      FinishedRefuses(u.rows, KeyOf(u, pid), pid, o.secondFail);
    }
  }

  lemma NoConflict(s: System, pid: Token, input: Input, o: Outcomes)
    requires Inv(s) && pid !in s.requests && InputKey(input) !in s.rows && Named(o) && !Taken(s, o)
    ensures !ChargeConflict(s.charges, ExpectedCharge(s, pid, input, o).(id := 0))
  {
    forall j | 0 <= j < |s.charges|
      ensures s.charges[j].paymentIntent != o.provider.id && s.charges[j].purchaseId != Issued(pid)
      ensures !IsFor(s.charges[j], input.userId, input.intent)
    {
      assert s.charges[j] in s.charges && ChargeOk(s, s.charges[j]);
      NoEarlierObligation(s, input);
      FoundCharge(s.charges, input.userId, input.intent);
    }
  }

  lemma CompletedIs(s: System, t: System, pid: Token, input: Input, i: Intent, charge: Charge, o: Outcomes)
    requires Holds(s, t, pid, input, i) && i.state == Executing && !ChargeConflict(t.charges, charge)
    requires t.requests[pid].pc == AtComplete(charge, true)
    ensures var u := Apply(t, Complete(pid, o.complete));
      var stored := charge.(id := |t.charges| + 1);
      && pid in u.requests && u.requests[pid].input == input && u.calls == t.calls
      && (o.complete == Rejected ==> Holds(s, u, pid, input, i))
      && (o.complete != Rejected ==>
            && u.charges == t.charges + [stored]
            && u.rows == t.rows[InputKey(input) := RecordedRow(i, stored, s.now + s.retention)])
      && u.requests[pid].pc == (if o.complete == Acked then Ended(Completed(ChargeBody(stored)))
                                else AtFail(true, ReconciliationRequired))
  {
  }

  /** A finished row refuses the failure writes, so the answer is the uncertain one. */
  lemma DefersAfterRecord(u: System, pid: Token, o: Outcomes)
    requires pid in u.requests && u.requests[pid].pc == AtFail(true, ReconciliationRequired)
    requires !Owns(u.rows, KeyOf(u, pid), pid, {Reserved, Executing})
    ensures var v := Apply(Apply(u, Fail(pid, o.fail)), SecondFail(pid, o.secondFail));
      && v.rows == u.rows && v.charges == u.charges && v.calls == u.calls
      && pid in v.requests && v.requests[pid].pc == Ended(Failed(ReconciliationRequired, None))
  {
    UncertainFailIs(u, pid, o.fail);
    FinishedRefuses(u.rows, KeyOf(u, pid), pid, o.fail);
    FinishedRefuses(u.rows, KeyOf(u, pid), pid, o.secondFail);
    SecondFailIs(Apply(u, Fail(pid, o.fail)), pid, o.secondFail);
  }

  lemma Completes(s: System, t: System, pid: Token, input: Input, i: Intent, charge: Charge, o: Outcomes)
    requires Holds(s, t, pid, input, i) && i.state == Executing && !ChargeConflict(t.charges, charge)
    requires t.requests[pid].pc == AtComplete(charge, true)
    ensures var stored := charge.(id := |t.charges| + 1);
      EndsWith(t, Run(t, DeferScript(pid, o)), pid,
               if o.complete == Rejected then OpenRow(Uncertain(i, ReconciliationRequired, o))
               else RecordedRow(i, stored, s.now + s.retention),
               if o.complete == Rejected then [] else [stored],
               if o.complete == Acked then Completed(ChargeBody(stored)) else Failed(ReconciliationRequired, None))
  {
    RunThree(t, Complete(pid, o.complete), Fail(pid, o.fail), SecondFail(pid, o.secondFail));
    var u := Apply(t, Complete(pid, o.complete));
    CompletedIs(s, t, pid, input, i, charge, o);
    if o.complete == Acked {
      EndedNoop(u, Fail(pid, o.fail));
      EndedNoop(u, SecondFail(pid, o.secondFail));
    } else if o.complete == Unacked {
      DefersAfterRecord(u, pid, o);
    } else {
      FailsTwice(s, u, pid, input, i, ReconciliationRequired, o);
    }
  }

  /** A call that fails with the effect flag set leaves what is expected of it. */
  lemma FailedLeaves(s: System, t: System, u: System, pid: Token, input: Input, o: Outcomes)
    requires o.insert == Acked && o.readBack && o.recheck && o.prepared && !Pays(s, input, o)
    requires Holds(s, t, pid, input, Progress(s, pid, input, o))
    requires t.calls == s.calls + if Reaches(o) then [StripeCall(pid, InputKey(input), o.provider)] else []
    requires var code := FailureCode(s, o);
      EndsWith(t, u, pid, OpenRow(Uncertain(Progress(s, pid, input, o), code, o)), [],
               Failed(if o.fail == Acked then code else ReconciliationRequired, None))
    ensures Leaves(s, u, pid, input, o)
  {
  }

  lemma CleanLeaves(s: System, t: System, u: System, pid: Token, input: Input, o: Outcomes)
    requires o.insert == Acked && o.readBack && o.recheck && !o.prepared
    requires Holds(s, t, pid, input, Reserved0(s, pid, input)) && t.calls == s.calls
    requires var i := Reserved0(s, pid, input);
      EndsWith(t, u, pid,
               if o.fail == Rejected then OpenRow(Uncertain(i, ReconciliationRequired, o))
               else CleanRow(s, i, input), [],
               if o.fail == Acked then Failed(NotChargedCode, Some(ErrorBody(503, NotChargedCode, input.intent)))
               else Failed(ReconciliationRequired, None))
    ensures Leaves(s, u, pid, input, o)
  {
  }

  // ---- The whole call ----

  /** A call for a fresh intent, from any reachable state, whatever the database
      loses or refuses and whatever the others answer: it charges exactly when the
      payment is its own and succeeded and the last write was not refused, answers
      with the charge exactly if it hears of that, and leaves exactly this row. */
  lemma FreshCallAnswers(s: System, pid: Token, input: Input, o: Outcomes)
    requires Reachable(s) && pid !in s.requests && InputKey(input) !in s.rows
    ensures Leaves(s, Run(s, Script(pid, input, o)), pid, input, o)
  {
    ReachableInv(s);
    Stages(s, pid, input, o);
    var s1 := Run(s, ReserveScript(pid, input, o));
    Reserves(s, pid, input, o);
    if o.insert != Acked || !o.readBack {
      EndedSkips(s1, pid, o);
    } else {
      WinnerSkips(s1, pid, o);
      Rechecks(s, s1, pid, input, o);
      var s3 := Run(s1, RecheckScript(pid, o));
      if !o.recheck { EndedSkips(s3, pid, o); } else { PreparedAnswers(s, s3, pid, input, o); }
    }
  }

  /** What remains to run from the checks on. */
  function Remainder(t: System, pid: Token, o: Outcomes): System {
    Run(Run(Run(Run(t, MarkScript(pid, o)), CallScript(pid, o)), RecordScript(pid, o)), DeferScript(pid, o))
  }

  lemma PreparedAnswers(s: System, s3: System, pid: Token, input: Input, o: Outcomes)
    requires Inv(s) && pid !in s.requests && InputKey(input) !in s.rows
    requires o.insert == Acked && o.readBack && o.recheck && Holds(s, s3, pid, input, Reserved0(s, pid, input))
    requires s3.calls == s.calls && s3.requests[pid].pc == AtPrepare
    ensures Leaves(s, Remainder(s3, pid, o), pid, input, o)
  {
    var i := Reserved0(s, pid, input);
    var s4 := Run(s3, MarkScript(pid, o));
    Marks(s, s3, pid, input, i, o);
    if !o.prepared {
      FailingSkips(s4, pid, o);
      DefersCleanly(s, s4, pid, input, i, o);
      CleanLeaves(s, s4, Run(s4, DeferScript(pid, o)), pid, input, o);
    } else if o.mark != Acked {
      FailingSkips(s4, pid, o);
      SkipsComplete(s4, pid, o);
      FailsTwice(s, s4, pid, input, Marked(i, o), ReconciliationRequired, o);
      FailedLeaves(s, s4, Run(s4, DeferScript(pid, o)), pid, input, o);
    } else {
      MarkedAnswers(s, s4, pid, input, o);
    }
  }

  lemma MarkedAnswers(s: System, s4: System, pid: Token, input: Input, o: Outcomes)
    requires Inv(s) && pid !in s.requests && InputKey(input) !in s.rows && Reaches(o)
    requires Holds(s, s4, pid, input, Marked(Reserved0(s, pid, input), o)) && s4.calls == s.calls
    requires s4.requests[pid].pc == AtStripe && s4.requests[pid].amounts == o.amounts
    ensures Leaves(s, Run(Run(Run(s4, CallScript(pid, o)), RecordScript(pid, o)), DeferScript(pid, o)), pid, input, o)
  {
    var i := Marked(Reserved0(s, pid, input), o);
    var s5 := Run(s4, CallScript(pid, o));
    Calls(s, s4, pid, input, i, o);
    if Named(o) && o.observe == Acked && !Elsewhere(s, o) {
      ObservedAnswers(s, s5, pid, input, o);
    } else {
      FailingSkips(s5, pid, o);
      SkipsComplete(s5, pid, o);
      FailsTwice(s, s5, pid, input, Noted(s, i, o), FailureCode(s, o), o);
      FailedLeaves(s, s5, Run(s5, DeferScript(pid, o)), pid, input, o);
    }
  }

  lemma PaidAnswers(s: System, s6: System, pid: Token, input: Input, i: Intent, o: Outcomes)
    requires Inv(s) && pid !in s.requests && InputKey(input) !in s.rows && Pays(s, input, o)
    requires Holds(s, s6, pid, input, i) && i == Progress(s, pid, input, o)
    requires s6.calls == s.calls + [StripeCall(pid, InputKey(input), o.provider)]
    requires s6.requests[pid].pc == AtComplete(ExpectedCharge(s, pid, input, o).(id := 0), true)
    ensures Leaves(s, Run(s6, DeferScript(pid, o)), pid, input, o)
  {
    var charge := ExpectedCharge(s, pid, input, o);
    NoConflict(s, pid, input, o);
    Completes(s, s6, pid, input, i, charge.(id := 0), o);
    PaidRow(s, pid, input, o);
    assert charge.(id := 0).(id := |s.charges| + 1) == charge;
  }

  lemma PaidRow(s: System, pid: Token, input: Input, o: Outcomes)
    requires Pays(s, input, o)
    ensures var i := Progress(s, pid, input, o);
      && ExpectedRow(s, pid, input, o) ==
           (if o.complete == Rejected then OpenRow(Uncertain(i, ReconciliationRequired, o))
            else RecordedRow(i, ExpectedCharge(s, pid, input, o), s.now + s.retention))
      && ExpectedReply(s, pid, input, o) ==
           (if o.complete == Acked then Completed(ChargeBody(ExpectedCharge(s, pid, input, o)))
            else Failed(ReconciliationRequired, None))
  {
  }

  lemma ObservedAnswers(s: System, s5: System, pid: Token, input: Input, o: Outcomes)
    requires Inv(s) && pid !in s.requests && InputKey(input) !in s.rows
    requires Reaches(o) && Named(o) && o.observe == Acked && !Elsewhere(s, o)
    requires Holds(s, s5, pid, input, Progress(s, pid, input, o))
    requires s5.calls == s.calls + [StripeCall(pid, InputKey(input), o.provider)]
    requires s5.requests[pid] == Request(input, o.amounts, o.provider.id, AtLookup(o.provider.status))
    ensures Leaves(s, Run(Run(s5, RecordScript(pid, o)), DeferScript(pid, o)), pid, input, o)
  {
    var i := Progress(s, pid, input, o);
    var s6 := Run(s5, RecordScript(pid, o));
    Chooses(s, s5, pid, input, i, o);
    if Pays(s, input, o) {
      PaidAnswers(s, s6, pid, input, i, o);
    } else {
      SkipsComplete(s6, pid, o);
      FailsTwice(s, s6, pid, input, i, FailureCode(s, o), o);
      FailedLeaves(s, s6, Run(s6, DeferScript(pid, o)), pid, input, o);
    }
  }
}
