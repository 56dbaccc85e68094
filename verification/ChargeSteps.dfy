/** Every action of the charge protocol keeps the invariant. */
module ChargeSteps {
  import opened Common
  import opened PurchaseTypes
  import opened IdempotencyTable
  import opened Recovery
  import opened ChargeProtocol
  import opened ChargeInvariant

  /** A step of `pid` touches its request, and at most its own live row, its
      own charge and its own provider call. */
  ghost predicate OwnStep(s: System, t: System, pid: Token) {
    && pid in s.requests
    && t.requests.Keys == s.requests.Keys
    && (forall q :: q in s.requests && q != pid ==> t.requests[q] == s.requests[q])
    && t.requests[pid].input == s.requests[pid].input
    && t.now == s.now && t.retention == s.retention
    && OwnRowStep(s, t, pid)
    && (t.calls == s.calls || (|t.calls| == |s.calls| + 1 && t.calls == s.calls + [t.calls[|s.calls|]]
                               && t.calls[|s.calls|].caller == pid && t.calls[|s.calls|].providerKey == KeyOf(s, pid)
                               && !Called(s, pid)))
    && (t.charges == s.charges || (|t.charges| == |s.charges| + 1 && t.charges == s.charges + [t.charges[|s.charges|]]
                                   && t.charges[|s.charges|].purchaseId == Issued(pid) && !HasCharge(s.charges, pid)))
  }

  /** The columns the insert writes and no update touches. */
  ghost predicate SameReservation(i: Intent, j: Intent) {
    && j.token == i.token && j.owner == i.owner && j.intent == i.intent
    && j.requestHash == i.requestHash && j.hashVersion == i.hashVersion && j.leaseUntil == i.leaseUntil
  }

  ghost predicate OwnRowStep(s: System, t: System, pid: Token)
    requires pid in s.requests
  {
    var key := KeyOf(s, pid);
    && (forall k :: k != key ==> (k in t.rows <==> k in s.rows) && (k in s.rows ==> t.rows[k] == s.rows[k]))
    && (forall k :: k != key ==>
        (k in t.written <==> k in s.written) && (k in s.written ==> t.written[k] == s.written[k]))
    && (key in s.written ==> key in t.written && t.written[key] == s.written[key])
    && (|| (t.rows == s.rows)
        || (key in t.rows && IsPurchase(t.rows[key]) && t.rows[key].intent.value.token == pid
            && (key in s.rows ==>
                  && IsPurchase(s.rows[key]) && s.rows[key].intent.value.token == pid
                  && !Terminal(s.rows[key].intent.value.state)
                  && SameReservation(s.rows[key].intent.value, t.rows[key].intent.value))))
    && (t.written == s.written
        || (key in s.rows && IsPurchase(s.rows[key]) && !Terminal(s.rows[key].intent.value.state)
            && s.rows[key].intent.value.token == pid))
  }

  lemma OthersKeepCalled(s: System, t: System, pid: Token, q: Token)
    requires OwnStep(s, t, pid)
    requires q != pid
    ensures Called(t, q) == Called(s, q)
  {
    if Called(s, q) {
      var j :| 0 <= j < |s.calls| && s.calls[j].caller == q;
      assert t.calls[j].caller == q;
    }
    if Called(t, q) {
      var j :| 0 <= j < |t.calls| && t.calls[j].caller == q;
      assert j < |s.calls| && s.calls[j].caller == q;
    }
  }

  lemma ToldStays(s: System, t: System, pid: Token, paymentIntent: string, status: string)
    requires s.calls <= t.calls && Told(s, pid, paymentIntent, status)
    ensures Told(t, pid, paymentIntent, status)
  {
    var answer := ProviderIntent(paymentIntent, status);
    var j :| 0 <= j < |s.calls| && s.calls[j].caller == pid && s.calls[j].answer == answer;
    assert t.calls[j] == s.calls[j];
  }

  lemma OthersKeepCore(s: System, t: System, pid: Token, q: Token)
    requires OwnStep(s, t, pid)
    requires q in s.requests && q != pid && CoreOk(s, q)
    ensures Own(t, q) == Own(s, q) && Called(t, q) == Called(s, q) && CoreOk(t, q)
  {
    OthersKeepCalled(s, t, pid, q);
    if HasCharge(s.charges, q) {
      var j :| 0 <= j < |s.charges| && s.charges[j].purchaseId == Issued(q);
      assert t.charges[j] == s.charges[j];
    }
  }

  lemma OthersKeepCopy(s: System, t: System, pid: Token, r: Request, copy: Row)
    requires OwnStep(s, t, pid) && CopyOk(s, r, copy)
    ensures CopyOk(t, r, copy)
  {
  }

  lemma OthersKeepRequest(s: System, t: System, pid: Token, q: Token)
    requires OwnStep(s, t, pid)
    requires q in s.requests && q != pid && RequestOk(s, q)
    ensures RequestOk(t, q)
  {
    OthersKeepCore(s, t, pid, q);
    var pc := s.requests[q].pc;
    if pc.AtDropBody? || pc.AtReplay? { OthersKeepCopy(s, t, pid, s.requests[q], pc.copy); }
    if pc.Ended? { assert ReplyOk(t, q, pc.reply); }
    if pc.AtObserve? { ToldStays(s, t, q, s.requests[q].paymentIntent, pc.status); }
  }

  lemma OthersKeepRow(s: System, t: System, pid: Token, k: Key)
    requires OwnStep(s, t, pid)
    requires k != KeyOf(s, pid) && k in t.rows && IsPurchase(t.rows[k]) && RowOk(s, k)
    ensures RowOk(t, k)
  {
    var i := t.rows[k].intent.value;
    assert KeyOf(t, i.token) == KeyOf(s, i.token);
    if i.paymentIntent.Some? { ToldStays(s, t, i.token, i.paymentIntent.value, i.paymentStatus.value); }
  }

  lemma OldChargeKept(s: System, t: System, pid: Token, c: Charge)
    requires OwnStep(s, t, pid)
    requires ChargeOk(s, c)
    ensures ChargeOk(t, c)
  {
    if !IsLegacy(c) {
      var q := c.purchaseId.token;
      assert KeyOf(t, q) == KeyOf(s, q);
      assert Own(t, q) == Own(s, q);
    }
  }

  lemma DistinctSnoc(charges: seq<Charge>, c: Charge, pid: Token)
    requires DistinctIds(charges) && c.purchaseId == Issued(pid) && !HasCharge(charges, pid)
    ensures DistinctIds(charges + [c])
  {
  }

  lemma CallsStayDistinct(s: System, t: System, pid: Token)
    requires Inv(s) && OwnStep(s, t, pid)
    ensures forall j :: 0 <= j < |t.calls| ==>
      t.calls[j].caller in t.requests && t.calls[j].providerKey == KeyOf(t, t.calls[j].caller)
    ensures forall i, j :: 0 <= i < j < |t.calls| ==> t.calls[i].caller != t.calls[j].caller
  {
    forall i, j | 0 <= i < j < |t.calls| ensures t.calls[i].caller != t.calls[j].caller {
      assert s.calls[i] == t.calls[i];
    }
  }

  lemma OwnStepKeepsInv(s: System, t: System, pid: Token)
    requires Inv(s) && OwnStep(s, t, pid)
    requires LocalOk(t, pid)
    requires |t.charges| > |s.charges| ==> ChargeOk(t, t.charges[|s.charges|])
    ensures Inv(t)
  {
    forall q | q in t.requests ensures RequestOk(t, q) {
      if q != pid { OthersKeepRequest(s, t, pid, q); }
    }
    forall k | k in t.rows && IsPurchase(t.rows[k]) ensures RowOk(t, k) {
      if k != KeyOf(s, pid) { OthersKeepRow(s, t, pid, k); }
    }
    forall j | 0 <= j < |t.charges| ensures ChargeOk(t, t.charges[j]) {
      if j < |s.charges| {
        assert t.charges[j] == s.charges[j];
        OldChargeKept(s, t, pid, s.charges[j]);
      }
    }
    if t.charges != s.charges { DistinctSnoc(s.charges, t.charges[|s.charges|], pid); }
    CallsStayDistinct(s, t, pid);
  }

  /** The rows and the history of one request, wherever it stands. */
  ghost predicate EntryOk(s: System, pid: Token) {
    && pid in s.requests
    && s.retention > 0
    && CoreOk(s, pid)
    && (KeyOf(s, pid) in s.rows && IsPurchase(s.rows[KeyOf(s, pid)]) ==> RowOk(s, KeyOf(s, pid)))
    && (KeyOf(s, pid) in s.written ==> KeyOf(s, pid) in s.rows && IsPurchase(s.rows[KeyOf(s, pid)]))
  }

  /** The invariant as far as one request can see it. */
  ghost predicate LocalOk(s: System, pid: Token) {
    EntryOk(s, pid) && PlaceOk(s, pid, s.requests[pid])
  }

  /** A step of `pid` that leaves its own entries in order. */
  ghost predicate GoodStep(s: System, t: System, pid: Token) {
    && OwnStep(s, t, pid) && LocalOk(t, pid)
    && (|t.charges| > |s.charges| ==> ChargeOk(t, t.charges[|s.charges|]))
  }

  /** Moving the requests leaves the rows in order. */
  lemma SameRow(u: System, t: System, key: Key)
    requires t.rows == u.rows && t.written == u.written && t.now == u.now && t.calls == u.calls
    requires forall q :: q in u.requests ==> q in t.requests && t.requests[q].input == u.requests[q].input
    requires key in u.rows && IsPurchase(u.rows[key]) && RowOk(u, key)
    ensures RowOk(t, key)
  {
    var i := u.rows[key].intent.value;
    if i.paymentIntent.Some? { ToldStays(u, t, i.token, i.paymentIntent.value, i.paymentStatus.value); }
  }

  lemma MovedIsOwnStep(s: System, u: System, pid: Token, r: Request)
    requires OwnStep(s, u, pid) && r.input == u.requests[pid].input
    ensures OwnStep(s, u.(requests := u.requests[pid := r]), pid)
  {
  }

  lemma MovedEntry(u: System, pid: Token, r: Request)
    requires EntryOk(u, pid) && r.input == u.requests[pid].input
    ensures var t := u.(requests := u.requests[pid := r]);
      EntryOk(t, pid) && Called(t, pid) == Called(u, pid) && Own(t, pid) == Own(u, pid)
  {
    var t := u.(requests := u.requests[pid := r]);
    assert Called(t, pid) == Called(u, pid);
    assert Own(t, pid) == Own(u, pid);
    if KeyOf(u, pid) in u.rows && IsPurchase(u.rows[KeyOf(u, pid)]) { SameRow(u, t, KeyOf(u, pid)); }
  }

  /** Moving on to the next statement. */
  lemma GotoKeeps(s: System, u: System, pid: Token, r: Request)
    requires OwnStep(s, u, pid) && EntryOk(u, pid)
    requires r.input == u.requests[pid].input && PlaceOk(u, pid, r)
    ensures var t := u.(requests := u.requests[pid := r]); OwnStep(s, t, pid) && LocalOk(t, pid)
  {
    var t := u.(requests := u.requests[pid := r]);
    MovedIsOwnStep(s, u, pid, r);
    MovedEntry(u, pid, r);
    if r.pc.AtObserve? { ToldStays(u, t, pid, r.paymentIntent, r.pc.status); }
  }

  lemma GotoPlace(s: System, u: System, pid: Token, pc: Pc)
    requires OwnStep(s, u, pid) && EntryOk(u, pid)
    requires PlaceOk(u, pid, u.requests[pid].(pc := pc))
    ensures OwnStep(s, Goto(u, pid, pc), pid) && LocalOk(Goto(u, pid, pc), pid)
  {
    GotoKeeps(s, u, pid, u.requests[pid].(pc := pc));
  }

  lemma StandStill(s: System, pid: Token)
    requires pid in s.requests
    ensures OwnStep(s, s, pid)
  {
  }

  lemma CasIsOwnStep(s: System, pid: Token, change: Change, write: Write)
    requires EntryOk(s, pid)
    ensures OwnStep(s, CasStep(s, pid, change, write).0, pid)
  {
  }

  lemma CasOwnRow(s: System, pid: Token, change: Change, write: Write)
    requires pid in s.requests
    ensures var (u, told) := CasStep(s, pid, change, write);
      && u == s.(rows := u.rows) && Called(u, pid) == Called(s, pid)
      && (u == s || (Own(s, pid).Some? && Own(s, pid).value.intent.value.state in FromStates(change)
                     && u.rows == s.rows[KeyOf(s, pid) := Changed(Own(s, pid).value, change)]
                     && Own(u, pid) == Some(Changed(Own(s, pid).value, change))))
      && (told == Updated ==> Own(s, pid).Some? && Own(u, pid) == Some(Changed(Own(s, pid).value, change)))
  {
  }

  /** A compare-and-set keeps the entry in order; the change must fit the row. */
  lemma CasKeeps(s: System, pid: Token, change: Change, write: Write)
    requires EntryOk(s, pid) && !change.FailClean? && !change.Record?
    requires change.Observe? ==> change.paymentIntent != "" && Told(s, pid, change.paymentIntent, change.status)
    ensures var (u, told) := CasStep(s, pid, change, write);
      && OwnStep(s, u, pid) && EntryOk(u, pid)
      && u.requests == s.requests && u.calls == s.calls && u.written == s.written && u.charges == s.charges
      && (u == s || (Own(s, pid).Some? && Own(s, pid).value.intent.value.state in FromStates(change)
                     && Own(u, pid) == Some(Changed(Own(s, pid).value, change))))
      && (told == Updated ==> Own(s, pid).Some? && Own(u, pid) == Some(Changed(Own(s, pid).value, change)))
  {
    CasIsOwnStep(s, pid, change, write);
    CasOwnRow(s, pid, change, write);
  }

  // ---- Actions of a request ----

  lemma NewcomerOk(s: System, pid: Token, input: Input)
    requires Inv(s) && pid !in s.requests
    ensures RequestOk(Apply(s, Begin(pid, input)), pid)
  {
    if InputKey(input) in s.rows && IsPurchase(s.rows[InputKey(input)]) { assert RowOk(s, InputKey(input)); }
  }

  lemma BeginStep(s: System, pid: Token, input: Input)
    requires Inv(s)
    ensures Inv(Apply(s, Begin(pid, input)))
  {
    var t := Apply(s, Begin(pid, input));
    if pid !in s.requests {
      NewcomerOk(s, pid, input);
      forall q | q in s.requests ensures RequestOk(t, q) { BegunRequest(s, t, q); }
      forall k | k in t.rows && IsPurchase(t.rows[k]) ensures RowOk(t, k) { SameRow(s, t, k); }
      BegunCharges(s, t);
    }
  }

  lemma BegunRequest(s: System, t: System, q: Token)
    requires q in s.requests && RequestOk(s, q)
    requires t == s.(requests := t.requests) && q in t.requests && t.requests[q] == s.requests[q]
    ensures RequestOk(t, q)
  {
    assert Own(t, q) == Own(s, q) && Called(t, q) == Called(s, q);
    var pc := s.requests[q].pc;
    if pc.AtObserve? { ToldStays(s, t, q, s.requests[q].paymentIntent, pc.status); }
  }

  lemma BegunCharges(s: System, t: System)
    requires Inv(s) && t.rows == s.rows && t.charges == s.charges
    requires forall q :: q in s.requests ==> q in t.requests && t.requests[q] == s.requests[q]
    ensures forall j :: 0 <= j < |t.charges| ==> ChargeOk(t, t.charges[j])
  {
    forall j | 0 <= j < |t.charges| ensures ChargeOk(t, t.charges[j]) { assert ChargeOk(s, s.charges[j]); }
  }

  lemma InsertEntry(s: System, pid: Token)
    requires LocalOk(s, pid) && At(s, pid, AtInsert)
    ensures var u := s.(rows := InsertIntent(s.rows, s.requests[pid].input, pid, s.now + s.lease));
      && OwnStep(s, u, pid) && EntryOk(u, pid) && Called(u, pid) == Called(s, pid)
      && (Own(u, pid).Some? ==> InState(Own(u, pid), {Reserved}))
  {
    var u := s.(rows := InsertIntent(s.rows, s.requests[pid].input, pid, s.now + s.lease));
    assert Called(u, pid) == Called(s, pid);
    if u.rows != s.rows { assert RowOk(u, KeyOf(s, pid)); }
  }

  lemma InsertLocal(s: System, pid: Token, write: Write)
    requires LocalOk(s, pid) && At(s, pid, AtInsert)
    ensures GoodStep(s, ApplyInsert(s, pid, write), pid)
  {
    assert !Called(s, pid) && Own(s, pid).None?;
    if write == Rejected {
      StandStill(s, pid);
      GotoPlace(s, s, pid, Ended(Refused(ReservationUnavailable, None)));
    } else {
      InsertEntry(s, pid);
      var u := s.(rows := InsertIntent(s.rows, s.requests[pid].input, pid, s.now + s.lease));
      var pc := if write == Acked then AtReadBack else Ended(Refused(ReservationUnavailable, None));
      GotoPlace(s, u, pid, pc);
      assert ApplyInsert(s, pid, write) == Goto(u, pid, pc);
    }
  }

  lemma ReadBackLocal(s: System, pid: Token, ok: bool)
    requires LocalOk(s, pid) && At(s, pid, AtReadBack)
    ensures GoodStep(s, ApplyReadBack(s, pid, ok), pid)
  {
    StandStill(s, pid);
    GotoPlace(s, s, pid, ApplyReadBack(s, pid, ok).requests[pid].pc);
  }

  lemma AnswerReplayLocal(s: System, pid: Token)
    requires LocalOk(s, pid) && s.requests[pid].pc.AtReplay?
    ensures GoodStep(s, ApplyAnswerReplay(s, pid), pid)
  {
    StandStill(s, pid);
    GotoPlace(s, s, pid, ApplyAnswerReplay(s, pid).requests[pid].pc);
  }

  lemma BeforeTheEffect(s: System, pid: Token, pc: Pc)
    requires LocalOk(s, pid) && At(s, pid, AtRecheck) && (pc.AtPrepare? || pc.AtAbandon?)
    ensures PlaceOk(s, pid, s.requests[pid].(pc := pc))
  {
  }

  lemma RecheckIs(s: System, pid: Token, ok: bool)
    requires At(s, pid, AtRecheck)
    ensures pid in ApplyRecheck(s, pid, ok).requests
    ensures var next := ApplyRecheck(s, pid, ok).requests[pid].pc;
      (next.AtPrepare? || next.AtAbandon?) && ApplyRecheck(s, pid, ok) == Goto(s, pid, next)
  {
  }

  lemma RecheckLocal(s: System, pid: Token, ok: bool)
    requires LocalOk(s, pid) && At(s, pid, AtRecheck)
    ensures GoodStep(s, ApplyRecheck(s, pid, ok), pid)
  {
    StandStill(s, pid);
    var next := ApplyRecheck(s, pid, ok).requests[pid].pc;
    RecheckIs(s, pid, ok);
    BeforeTheEffect(s, pid, next);
    GotoPlace(s, s, pid, next);
  }

  lemma AbandonLocal(s: System, pid: Token, write: Write)
    requires LocalOk(s, pid) && s.requests[pid].pc.AtAbandon?
    ensures GoodStep(s, ApplyAbandon(s, pid, write), pid)
  {
    var change := FailUncertain(s.requests[pid].pc.code);
    CasKeeps(s, pid, change, write);
    GotoPlace(s, CasStep(s, pid, change, write).0, pid, ApplyAbandon(s, pid, write).requests[pid].pc);
  }

  lemma PrepareLocal(s: System, pid: Token, ok: bool, amounts: string)
    requires LocalOk(s, pid) && At(s, pid, AtPrepare)
    ensures GoodStep(s, ApplyPrepare(s, pid, ok, amounts), pid)
  {
    StandStill(s, pid);
    var t := ApplyPrepare(s, pid, ok, amounts);
    GotoKeeps(s, s, pid, t.requests[pid]);
    assert t.requests == s.requests[pid := t.requests[pid]];
  }

  lemma MarkLocal(s: System, pid: Token, write: Write)
    requires LocalOk(s, pid) && At(s, pid, AtMark)
    ensures GoodStep(s, ApplyMark(s, pid, write), pid)
  {
    CasKeeps(s, pid, MarkExecuting, write);
    GotoPlace(s, CasStep(s, pid, MarkExecuting, write).0, pid, ApplyMark(s, pid, write).requests[pid].pc);
  }

  lemma CallStripeLocal(s: System, pid: Token, outcome: Provider)
    requires LocalOk(s, pid) && At(s, pid, AtStripe)
    ensures GoodStep(s, ApplyCallStripe(s, pid, outcome), pid)
  {
    var u := s.(calls := s.calls + [StripeCall(pid, KeyOf(s, pid), outcome)]);
    assert u.calls[|s.calls|].caller == pid;
    var t := ApplyCallStripe(s, pid, outcome);
    GotoKeeps(s, u, pid, t.requests[pid]);
    assert t.requests == u.requests[pid := t.requests[pid]];
  }

  lemma ObserveLocal(s: System, pid: Token, write: Write)
    requires LocalOk(s, pid) && s.requests[pid].pc.AtObserve?
    ensures GoodStep(s, ApplyObserve(s, pid, write), pid)
  {
    var change := Observe(s.requests[pid].paymentIntent, s.requests[pid].pc.status);
    CasKeeps(s, pid, change, write);
    GotoPlace(s, CasStep(s, pid, change, write).0, pid, ApplyObserve(s, pid, write).requests[pid].pc);
  }

  function CleanWrite(s: System, pid: Token, code: Code): System
    requires pid in s.requests && Own(s, pid).Some?
  {
    var key := KeyOf(s, pid);
    var body := CleanBody(s.requests[pid].input);
    s.(rows := s.rows[key := Changed(Own(s, pid).value, FailClean(code, 503, body, s.now + s.retention))],
       written := s.written[key := body])
  }

  lemma CleanWriteKeeps(s: System, pid: Token, code: Code)
    requires EntryOk(s, pid) && InState(Own(s, pid), {Reserved}) && !Called(s, pid)
    ensures var v := CleanWrite(s, pid, code);
      OwnStep(s, v, pid) && EntryOk(v, pid) && InState(Own(v, pid), {NotCharged}) && !Called(v, pid)
  {
    var v := CleanWrite(s, pid, code);
    assert RowOk(s, KeyOf(s, pid));
    assert Called(v, pid) == Called(s, pid);
    assert RowOk(v, KeyOf(s, pid));
  }

  function AfterCleanWrite(r: Request, write: Write): Pc
    requires r.pc.AtFail?
  {
    if write == Acked then Ended(Failed(r.pc.code, Some(CleanBody(r.input)))) else AtSecondFail
  }

  lemma FailCleanIs(s: System, pid: Token, write: Write)
    requires pid in s.requests && s.requests[pid].pc.AtFail? && !s.requests[pid].pc.effect
    requires InState(Own(s, pid), {Reserved}) && write != Rejected
    ensures ApplyFail(s, pid, write)
      == Goto(CleanWrite(s, pid, s.requests[pid].pc.code), pid, AfterCleanWrite(s.requests[pid], write))
  {
  }

  lemma FailCleanLocal(s: System, pid: Token, write: Write)
    requires LocalOk(s, pid) && s.requests[pid].pc.AtFail? && !s.requests[pid].pc.effect && write != Rejected
    ensures GoodStep(s, ApplyFail(s, pid, write), pid)
  {
    CleanWriteKeeps(s, pid, s.requests[pid].pc.code);
    FailCleanIs(s, pid, write);
    GotoPlace(s, CleanWrite(s, pid, s.requests[pid].pc.code), pid, AfterCleanWrite(s.requests[pid], write));
  }

  lemma FailLocal(s: System, pid: Token, write: Write)
    requires LocalOk(s, pid) && s.requests[pid].pc.AtFail?
    ensures GoodStep(s, ApplyFail(s, pid, write), pid)
  {
    var r := s.requests[pid];
    if r.pc.effect {
      CasKeeps(s, pid, FailUncertain(r.pc.code), write);
      var (u, told) := CasStep(s, pid, FailUncertain(r.pc.code), write);
      GotoPlace(s, u, pid, if told == Updated then Ended(Failed(r.pc.code, None)) else AtSecondFail);
    } else if write == Rejected {
      StandStill(s, pid);
      GotoPlace(s, s, pid, AtSecondFail);
      assert ApplyFail(s, pid, write) == Goto(s, pid, AtSecondFail);
    } else {
      FailCleanLocal(s, pid, write);
    }
  }

  lemma SecondFailLocal(s: System, pid: Token, write: Write)
    requires LocalOk(s, pid) && At(s, pid, AtSecondFail)
    ensures GoodStep(s, ApplySecondFail(s, pid, write), pid)
  {
    CasKeeps(s, pid, FailUncertain(ReconciliationRequired), write);
    GotoPlace(s, CasStep(s, pid, FailUncertain(ReconciliationRequired), write).0, pid,
      Ended(Failed(ReconciliationRequired, None)));
  }

  ghost predicate ChargesOk(s: System) {
    forall j :: 0 <= j < |s.charges| ==> ChargeOk(s, s.charges[j])
  }

  lemma FoundByPayment(charges: seq<Charge>, pi: string)
    ensures FindByPayment(charges, pi).Some? ==>
      FindByPayment(charges, pi).value in charges && FindByPayment(charges, pi).value.paymentIntent == pi
  {
  }

  /** While the row is executing no charge carries its identity, so reuse of a
      payment intent is never accepted as this purchase's own. */
  lemma NoOwnObligationYet(s: System, pid: Token, c: Charge)
    requires pid in s.requests && InState(Own(s, pid), {Executing}) && ChargeOk(s, c)
    ensures !SameObligation(c, s.requests[pid].input) && c.purchaseId != Issued(pid)
  {
  }

  lemma LookupLocal(s: System, pid: Token, ok: bool)
    requires LocalOk(s, pid) && s.requests[pid].pc.AtLookup? && ChargesOk(s)
    ensures GoodStep(s, ApplyLookup(s, pid, ok), pid)
  {
    var previous := FindByPayment(s.charges, s.requests[pid].paymentIntent);
    FoundByPayment(s.charges, s.requests[pid].paymentIntent);
    if previous.Some? { NoOwnObligationYet(s, pid, previous.value); }
    StandStill(s, pid);
    LookupPlace(s, pid, ok);
    GotoPlace(s, s, pid, ApplyLookup(s, pid, ok).requests[pid].pc);
  }

  lemma LookupPlace(s: System, pid: Token, ok: bool)
    requires LocalOk(s, pid) && s.requests[pid].pc.AtLookup?
    requires var p := FindByPayment(s.charges, s.requests[pid].paymentIntent);
      p.Some? ==> !SameObligation(p.value, s.requests[pid].input)
    ensures var t := ApplyLookup(s, pid, ok);
      && pid in t.requests && t == Goto(s, pid, t.requests[pid].pc)
      && PlaceOk(s, pid, s.requests[pid].(pc := t.requests[pid].pc))
  {
  }

  lemma SubmitEscrowLocal(s: System, pid: Token, ok: bool, job: Option<nat>)
    requires LocalOk(s, pid) && At(s, pid, AtEscrow)
    ensures GoodStep(s, ApplySubmitEscrow(s, pid, ok, job), pid)
  {
    StandStill(s, pid);
    GotoPlace(s, s, pid, ApplySubmitEscrow(s, pid, ok, job).requests[pid].pc);
  }

  lemma NoChargeYet(s: System, pid: Token)
    requires pid in s.requests && InState(Own(s, pid), {Executing}) && ChargesOk(s)
    ensures !HasCharge(s.charges, pid)
  {
    if HasCharge(s.charges, pid) {
      var j :| 0 <= j < |s.charges| && s.charges[j].purchaseId == Issued(pid);
      NoOwnObligationYet(s, pid, s.charges[j]);
    }
  }

  lemma CompleteTxKeeps(s: System, pid: Token, charge: Charge, write: Write)
    requires EntryOk(s, pid) && ChargesOk(s)
    requires Observed(s.requests[pid], Own(s, pid), "succeeded")
    requires charge == NewCharge(s.requests[pid], pid, charge.escrow)
    ensures var (u, acked) := CompleteTx(s, pid, charge, true, write);
      && OwnStep(s, u, pid) && EntryOk(u, pid) && u.requests == s.requests && Called(u, pid) == Called(s, pid)
      && (|u.charges| > |s.charges| ==> ChargeOk(u, u.charges[|s.charges|]))
      && (if u == s then !acked
          else InState(Own(u, pid), {Recorded}) && KeyOf(s, pid) in u.written
               && u.written[KeyOf(s, pid)] == ChargeBody(charge.(id := |s.charges| + 1)))
  {
    NoChargeYet(s, pid);
    var (u, acked) := CompleteTx(s, pid, charge, true, write);
    var key := KeyOf(s, pid);
    assert RowOk(s, key);
    assert Called(u, pid) == Called(s, pid);
    if u != s {
      assert u.charges[|s.charges|].purchaseId == Issued(pid);
      assert RowOk(u, key);
    }
  }

  lemma CompleteLocal(s: System, pid: Token, write: Write)
    requires LocalOk(s, pid) && s.requests[pid].pc.AtComplete? && ChargesOk(s)
    ensures GoodStep(s, ApplyComplete(s, pid, write), pid)
  {
    var charge := s.requests[pid].pc.charge;
    CompleteTxKeeps(s, pid, charge, write);
    var (u, acked) := CompleteTx(s, pid, charge, true, write);
    var pc := if acked then Ended(Completed(ChargeBody(charge.(id := |s.charges| + 1))))
      else AtFail(true, ReconciliationRequired);
    assert PlaceOk(u, pid, u.requests[pid].(pc := pc));
    GotoPlace(s, u, pid, pc);
  }

  // ---- Steps of everyone else ----

  /** Time passes, cache rows come and go, expired bodies are dropped. */
  ghost predicate Background(s: System, t: System) {
    && t.requests == s.requests && t.charges == s.charges && t.calls == s.calls && t.written == s.written
    && t.retention == s.retention && t.now >= s.now
    && (forall k :: k in s.rows && IsPurchase(s.rows[k]) ==>
          k in t.rows && (t.rows[k] == s.rows[k]
            || (BodyExpired(s.rows[k], s.now) && t.rows[k] == s.rows[k].(body := None))))
    && (forall k :: k in t.rows && IsPurchase(t.rows[k]) ==> k in s.rows && IsPurchase(s.rows[k]))
  }

  predicate BodyExpired(row: Row, now: Time) {
    IsPurchase(row) && row.intent.value.responseExpiresAt.Some? && row.intent.value.responseExpiresAt.value <= now
  }

  lemma BackgroundKeepsRequest(s: System, t: System, q: Token)
    requires Background(s, t) && q in s.requests && RequestOk(s, q)
    ensures RequestOk(t, q)
  {
    assert Called(t, q) == Called(s, q);
    var a, b := Own(s, q), Own(t, q);
    assert a.Some? == b.Some?;
    assert a.Some? ==> a.value.intent == b.value.intent;
  }

  lemma BackgroundKeepsRow(s: System, t: System, k: Key)
    requires Background(s, t) && k in t.rows && IsPurchase(t.rows[k]) && RowOk(s, k)
    ensures RowOk(t, k)
  {
  }

  lemma BackgroundKeepsCharge(s: System, t: System, c: Charge)
    requires Background(s, t) && ChargeOk(s, c)
    ensures ChargeOk(t, c)
  {
  }

  lemma BackgroundKeepsInv(s: System, t: System)
    requires Inv(s) && Background(s, t)
    ensures Inv(t)
  {
    forall q | q in t.requests ensures RequestOk(t, q) { BackgroundKeepsRequest(s, t, q); }
    forall k | k in t.rows && IsPurchase(t.rows[k]) ensures RowOk(t, k) { BackgroundKeepsRow(s, t, k); }
    forall j | 0 <= j < |t.charges| ensures ChargeOk(t, t.charges[j]) { BackgroundKeepsCharge(s, t, s.charges[j]); }
  }

  lemma SamePurchasesIsBackground(s: System, rows: Rows)
    requires SamePurchases(s.rows, rows)
    ensures Background(s, s.(rows := rows))
  {
  }

  lemma ReserveIsBackground(s: System, key: Key, expiry: Time, sees: bool)
    ensures Background(s, s.(rows := TryReserve(s.rows, key, s.now, expiry, sees)))
  {
    GenericStoreKeepsPurchases(s.rows, key, s.now, expiry, sees, 0, "", "");
    SamePurchasesIsBackground(s, TryReserve(s.rows, key, s.now, expiry, sees));
  }

  lemma SetIsBackground(s: System, key: Key, expiry: Time, status: int, contentType: string, text: string)
    ensures Background(s, s.(rows := SetResponse(s.rows, key, s.now, expiry, status, contentType, text)))
  {
    GenericStoreKeepsPurchases(s.rows, key, s.now, expiry, true, status, contentType, text);
    SamePurchasesIsBackground(s, SetResponse(s.rows, key, s.now, expiry, status, contentType, text));
  }

  lemma ReleaseIsBackground(s: System, key: Key)
    ensures Background(s, s.(rows := Release(s.rows, key)))
  {
    GenericStoreKeepsPurchases(s.rows, key, 0, 0, true, 0, "", "");
    SamePurchasesIsBackground(s, Release(s.rows, key));
  }

  lemma PruneIsBackground(s: System)
    ensures Background(s, s.(rows := PruneExpired(s.rows, s.now)))
  {
    GenericStoreKeepsPurchases(s.rows, PlainKey(""), s.now, 0, true, 0, "", "");
    SamePurchasesIsBackground(s, PruneExpired(s.rows, s.now));
  }

  lemma PurgeIsBackground(s: System)
    ensures Background(s, s.(rows := PurgeBodies(s.rows, s.now)))
  {
  }

  lemma GenericIsBackground(s: System, a: Action)
    requires a.GenericReserve? || a.GenericSet? || a.GenericRelease? || a.GenericPurgeBodies?
      || a.GenericPruneExpired? || a.Tick?
    ensures Background(s, Apply(s, a))
  {
    match a
    case GenericReserve(key, expiry, sees) => ReserveIsBackground(s, key, expiry, sees);
    case GenericSet(key, expiry, status, contentType, text) =>
      SetIsBackground(s, key, expiry, status, contentType, text);
    case GenericRelease(key) => ReleaseIsBackground(s, key);
    case GenericPurgeBodies => PurgeIsBackground(s);
    case GenericPruneExpired => PruneIsBackground(s);
    case _ =>
  }

  function DropBodyTable(s: System, pid: Token, write: Write): System
    requires pid in s.requests
  {
    if write == Rejected then s else s.(rows := DropBody(s.rows, KeyOf(s, pid)))
  }

  lemma DropBodyIsBackground(s: System, pid: Token, write: Write)
    requires LocalOk(s, pid) && s.requests[pid].pc.AtDropBody?
    ensures Background(s, DropBodyTable(s, pid, write))
  {
    assert RowOk(s, KeyOf(s, pid));
  }

  lemma DropBodyStep(s: System, pid: Token, write: Write)
    requires Inv(s)
    ensures Inv(Apply(s, DropExpiredBody(pid, write)))
  {
    if pid in s.requests && s.requests[pid].pc.AtDropBody? {
      InvIsLocal(s, pid);
      DropBodyIsBackground(s, pid, write);
      BackgroundKeepsInv(s, DropBodyTable(s, pid, write));
      DropBodyMoves(DropBodyTable(s, pid, write), pid, write);
    }
  }

  lemma DropBodyMoves(u: System, pid: Token, write: Write)
    requires Inv(u) && pid in u.requests && u.requests[pid].pc.AtDropBody?
    ensures var copy := u.requests[pid].pc.copy;
            Inv(Goto(u, pid, if write == Acked then AtReplay(copy.(body := None))
              else Ended(Refused(ReservationUnavailable, None))))
  {
    var copy := u.requests[pid].pc.copy;
    assert RequestOk(u, pid);
    assert RowOk(u, KeyOf(u, pid));
    var pc := if write == Acked then AtReplay(copy.(body := None)) else Ended(Refused(ReservationUnavailable, None));
    StandStill(u, pid);
    GotoPlace(u, u, pid, pc);
    OwnStepKeepsInv(u, Goto(u, pid, pc), pid);
  }

  lemma UpdateEscrowKeepsRequest(s: System, index: nat, columns: EscrowColumns, q: Token)
    requires index < |s.charges| && q in s.requests && RequestOk(s, q)
    ensures RequestOk(Apply(s, UpdateEscrow(index, columns)), q)
  {
    var t := Apply(s, UpdateEscrow(index, columns));
    assert Called(t, q) == Called(s, q);
    if HasCharge(s.charges, q) {
      var j :| 0 <= j < |s.charges| && s.charges[j].purchaseId == Issued(q);
      assert t.charges[j].purchaseId == Issued(q);
    }
  }

  lemma UpdateEscrowStep(s: System, index: nat, columns: EscrowColumns)
    requires Inv(s)
    ensures Inv(Apply(s, UpdateEscrow(index, columns)))
  {
    if index < |s.charges| {
      var t := Apply(s, UpdateEscrow(index, columns));
      forall q | q in t.requests ensures RequestOk(t, q) { UpdateEscrowKeepsRequest(s, index, columns, q); }
      forall k | k in t.rows && IsPurchase(t.rows[k]) ensures RowOk(t, k) { assert RowOk(s, k); }
      forall j | 0 <= j < |t.charges| ensures ChargeOk(t, t.charges[j]) { assert ChargeOk(s, s.charges[j]); }
    }
  }

  // ---- All actions ----

  predicate EarlyAction(a: Action) {
    a.Insert? || a.ReadBack? || a.AnswerReplay? || a.Recheck? || a.Abandon? || a.Prepare? || a.Mark?
  }

  predicate LateAction(a: Action) {
    a.CallStripe? || a.ObserveIntent? || a.LookupIntent? || a.SubmitEscrow? || a.Complete? || a.Fail? || a.SecondFail?
  }

  lemma EarlyActionLocal(s: System, a: Action)
    requires EarlyAction(a) && Apply(s, a) != s && LocalOk(s, a.pid)
    ensures GoodStep(s, Apply(s, a), a.pid)
  {
    match a
    case Insert(pid, write) => InsertLocal(s, pid, write);
    case ReadBack(pid, ok) => ReadBackLocal(s, pid, ok);
    case AnswerReplay(pid) => AnswerReplayLocal(s, pid);
    case Recheck(pid, ok) => RecheckLocal(s, pid, ok);
    case Abandon(pid, write) => AbandonLocal(s, pid, write);
    case Prepare(pid, ok, amounts) => PrepareLocal(s, pid, ok, amounts);
    case Mark(pid, write) => MarkLocal(s, pid, write);
  }

  lemma LateActionLocal(s: System, a: Action)
    requires LateAction(a) && Apply(s, a) != s && LocalOk(s, a.pid) && ChargesOk(s)
    ensures GoodStep(s, Apply(s, a), a.pid)
  {
    match a
    case CallStripe(pid, outcome) => CallStripeLocal(s, pid, outcome);
    case ObserveIntent(pid, write) => ObserveLocal(s, pid, write);
    case LookupIntent(pid, ok) => LookupLocal(s, pid, ok);
    case SubmitEscrow(pid, ok, job) => SubmitEscrowLocal(s, pid, ok, job);
    case Complete(pid, write) => CompleteLocal(s, pid, write);
    case Fail(pid, write) => FailLocal(s, pid, write);
    case SecondFail(pid, write) => SecondFailLocal(s, pid, write);
  }

  lemma InvIsLocal(s: System, pid: Token)
    requires Inv(s) && pid in s.requests
    ensures LocalOk(s, pid) && ChargesOk(s)
  {
  }

  /** Every action, by anyone, keeps the invariant. */
  lemma StepKeepsInv(s: System, a: Action)
    requires Inv(s)
    ensures Inv(Apply(s, a))
  {
    if EarlyAction(a) || LateAction(a) {
      if Apply(s, a) != s {
        InvIsLocal(s, a.pid);
        if EarlyAction(a) { EarlyActionLocal(s, a); } else { LateActionLocal(s, a); }
        OwnStepKeepsInv(s, Apply(s, a), a.pid);
      }
    } else {
      match a
      case Begin(pid, input) => BeginStep(s, pid, input);
      case DropExpiredBody(pid, write) => DropBodyStep(s, pid, write);
      case UpdateEscrow(index, columns) => UpdateEscrowStep(s, index, columns);
      case _ =>
        GenericIsBackground(s, a);
        BackgroundKeepsInv(s, Apply(s, a));
    }
  }

  lemma {:induction false} RunKeepsInv(s: System, actions: seq<Action>)
    requires Inv(s)
    ensures Inv(Run(s, actions))
    decreases |actions|
  {
    if actions != [] {
      StepKeepsInv(s, actions[0]);
      RunKeepsInv(Apply(s, actions[0]), actions[1..]);
    }
  }
}
