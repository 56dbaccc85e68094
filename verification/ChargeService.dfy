/** CreatePurchaseCharge as it is written: one statement after another, a local
    effect flag and a deferred failure write. Each method is tied to the
    statements of the transition system it performs. */
module ChargeService {
  import opened Common
  import opened PurchaseTypes
  import opened IdempotencyTable
  import opened Recovery
  import opened ChargeProtocol

  /** What the database, the provider and the checks answer during one call. */
  datatype Outcomes = Outcomes(
    insert: Write, readBack: bool, dropBody: Write, recheck: bool, abandon: Write,
    prepared: bool, amounts: string, mark: Write, provider: Provider, observe: Write,
    lookup: bool, escrow: bool, job: Option<nat>, complete: Write, fail: Write, secondFail: Write)

  function ReserveScript(pid: Token, input: Input, o: Outcomes): seq<Action> {
    [Begin(pid, input), Insert(pid, o.insert), ReadBack(pid, o.readBack)]
  }

  function ReplayScript(pid: Token, o: Outcomes): seq<Action> {
    [DropExpiredBody(pid, o.dropBody), AnswerReplay(pid)]
  }

  function RecheckScript(pid: Token, o: Outcomes): seq<Action> {
    [Recheck(pid, o.recheck), Abandon(pid, o.abandon)]
  }

  function MarkScript(pid: Token, o: Outcomes): seq<Action> {
    [Prepare(pid, o.prepared, o.amounts), Mark(pid, o.mark)]
  }

  function CallScript(pid: Token, o: Outcomes): seq<Action> {
    [CallStripe(pid, o.provider), ObserveIntent(pid, o.observe)]
  }

  function RecordScript(pid: Token, o: Outcomes): seq<Action> {
    [LookupIntent(pid, o.lookup), SubmitEscrow(pid, o.escrow, o.job)]
  }

  function DeferScript(pid: Token, o: Outcomes): seq<Action> {
    [Complete(pid, o.complete), Fail(pid, o.fail), SecondFail(pid, o.secondFail)]
  }

  /** All statements of one call; those its control flow skips do nothing. */
  function Script(pid: Token, input: Input, o: Outcomes): seq<Action> {
    ReserveScript(pid, input, o)
    + (ReplayScript(pid, o) + (RecheckScript(pid, o) + (MarkScript(pid, o)
    + (CallScript(pid, o) + (RecordScript(pid, o) + DeferScript(pid, o))))))
  }

  lemma {:induction false} RunConcat(s: System, a: seq<Action>, b: seq<Action>)
    ensures Run(s, a + b) == Run(Run(s, a), b)
    decreases |a|
  {
    if a == [] {
      assert a + b == b;
    } else {
      assert (a + b)[0] == a[0] && (a + b)[1..] == a[1..] + b;
      RunConcat(Apply(s, a[0]), a[1..], b);
    }
  }

  lemma RunTwo(s: System, a: Action, b: Action)
    ensures Run(s, [a, b]) == Apply(Apply(s, a), b)
  {
    assert [a, b][1..] == [b] && [b][1..] == [];
    assert Run(Apply(s, a), [b]) == Apply(Apply(s, a), b);
  }

  lemma RunThree(s: System, a: Action, b: Action, c: Action)
    ensures Run(s, [a, b, c]) == Apply(Apply(Apply(s, a), b), c)
  {
    assert [a, b, c][1..] == [b, c];
    RunTwo(Apply(s, a), b, c);
  }

  predicate CallStep(a: Action) {
    || a.Insert? || a.ReadBack? || a.DropExpiredBody? || a.AnswerReplay? || a.Recheck? || a.Abandon?
    || a.Prepare? || a.Mark? || a.CallStripe? || a.ObserveIntent? || a.LookupIntent? || a.SubmitEscrow?
    || a.Complete? || a.Fail? || a.SecondFail?
  }

  lemma EndedNoop(s: System, a: Action)
    requires CallStep(a) && a.pid in s.requests && s.requests[a.pid].pc.Ended?
    ensures Apply(s, a) == s
  {
  }

  lemma EndedTwo(s: System, a: Action, b: Action)
    requires CallStep(a) && CallStep(b) && a.pid == b.pid && a.pid in s.requests && s.requests[a.pid].pc.Ended?
    ensures Run(s, [a, b]) == s
  {
    RunTwo(s, a, b);
    EndedNoop(s, a);
    EndedNoop(s, b);
  }

  lemma EndedThree(s: System, a: Action, b: Action, c: Action)
    requires CallStep(a) && CallStep(b) && CallStep(c) && a.pid == b.pid == c.pid && a.pid in s.requests
      && s.requests[a.pid].pc.Ended?
    ensures Run(s, [a, b, c]) == s
  {
    RunThree(s, a, b, c);
    RunTwo(s, b, c);
    EndedNoop(s, a);
    EndedTwo(s, b, c);
  }

  /** A call that has answered does nothing more. */
  lemma EndedSkips(s: System, pid: Token, o: Outcomes)
    requires pid in s.requests && s.requests[pid].pc.Ended?
    ensures Run(s, ReplayScript(pid, o)) == s && Run(s, RecheckScript(pid, o)) == s && Run(s, MarkScript(pid, o)) == s
    ensures Run(s, CallScript(pid, o)) == s && Run(s, RecordScript(pid, o)) == s && Run(s, DeferScript(pid, o)) == s
  {
    EndedTwo(s, DropExpiredBody(pid, o.dropBody), AnswerReplay(pid));
    EndedTwo(s, Recheck(pid, o.recheck), Abandon(pid, o.abandon));
    EndedTwo(s, Prepare(pid, o.prepared, o.amounts), Mark(pid, o.mark));
    EndedTwo(s, CallStripe(pid, o.provider), ObserveIntent(pid, o.observe));
    EndedTwo(s, LookupIntent(pid, o.lookup), SubmitEscrow(pid, o.escrow, o.job));
    EndedThree(s, Complete(pid, o.complete), Fail(pid, o.fail), SecondFail(pid, o.secondFail));
  }

  /** The script, stage after stage. */
  lemma Stages(s: System, pid: Token, input: Input, o: Outcomes)
    ensures var s1 := Run(s, ReserveScript(pid, input, o));
      var s2 := Run(s1, ReplayScript(pid, o));
      var s3 := Run(s2, RecheckScript(pid, o));
      var s4 := Run(s3, MarkScript(pid, o));
      var s5 := Run(s4, CallScript(pid, o));
      var s6 := Run(s5, RecordScript(pid, o));
      Run(s, Script(pid, input, o)) == Run(s6, DeferScript(pid, o))
  {
    var s1 := Run(s, ReserveScript(pid, input, o));
    var s2 := Run(s1, ReplayScript(pid, o));
    var s3 := Run(s2, RecheckScript(pid, o));
    var s4 := Run(s3, MarkScript(pid, o));
    var record := RecordScript(pid, o) + DeferScript(pid, o);
    var call := CallScript(pid, o) + record;
    var mark := MarkScript(pid, o) + call;
    var recheck := RecheckScript(pid, o) + mark;
    RunConcat(s, ReserveScript(pid, input, o), ReplayScript(pid, o) + recheck);
    RunConcat(s1, ReplayScript(pid, o), recheck);
    RunConcat(s2, RecheckScript(pid, o), mark);
    RunConcat(s3, MarkScript(pid, o), call);
    RunConcat(s4, CallScript(pid, o), record);
    RunConcat(Run(s4, CallScript(pid, o)), RecordScript(pid, o), DeferScript(pid, o));
  }

  /** A call that has failed skips to the deferred handler. */
  lemma FailingSkips(s: System, pid: Token, o: Outcomes)
    requires pid in s.requests && s.requests[pid].pc.AtFail?
    ensures Run(s, CallScript(pid, o)) == s && Run(s, RecordScript(pid, o)) == s
  {
    RunTwo(s, CallStripe(pid, o.provider), ObserveIntent(pid, o.observe));
    RunTwo(s, LookupIntent(pid, o.lookup), SubmitEscrow(pid, o.escrow, o.job));
  }

  lemma WinnerSkips(s: System, pid: Token, o: Outcomes)
    requires pid in s.requests && s.requests[pid].pc == AtRecheck
    ensures Run(s, ReplayScript(pid, o)) == s
  {
    RunTwo(s, DropExpiredBody(pid, o.dropBody), AnswerReplay(pid));
  }

  /** A failure of the call, as its deferred handler sees it. */
  datatype Failure = Failing(effect: bool, conflict: bool)

  /** The error code the deferred handler stores. */
  function DeferredCode(effect: bool, conflict: bool): Code {
    if !effect then NotChargedCode else if conflict then PaymentIntentConflict else ReconciliationRequired
  }

  /** The statement a failing call goes on to. */
  function FailureOf(failure: Failure): Pc {
    AtFail(failure.effect, DeferredCode(failure.effect, failure.conflict))
  }

  /** The columns a step that only writes its own row leaves alone. */
  ghost predicate OnlyRows(s: System, t: System, rows: Rows, pid: Token, pc: Pc) {
    && t.rows == rows && t.charges == s.charges && t.calls == s.calls
    && t.now == s.now && t.lease == s.lease && t.retention == s.retention
    && pid in s.requests && pid in t.requests && t.requests[pid] == s.requests[pid].(pc := pc)
  }

  lemma CleanFailIs(s: System, pid: Token, write: Write)
    requires pid in s.requests && s.requests[pid].pc == AtFail(false, NotChargedCode)
    ensures var body := CleanBody(s.requests[pid].input);
      var change := FailClean(NotChargedCode, 503, body, s.now + s.retention);
      var (rows, told) := Cas(s.rows, KeyOf(s, pid), pid, change, write);
      OnlyRows(s, Apply(s, Fail(pid, write)), rows, pid,
        if told == Updated then Ended(Failed(NotChargedCode, Some(body))) else AtSecondFail)
  {
  }

  lemma UncertainFailIs(s: System, pid: Token, write: Write)
    requires pid in s.requests && s.requests[pid].pc.AtFail? && s.requests[pid].pc.effect
    ensures var code := s.requests[pid].pc.code;
      var (rows, told) := Cas(s.rows, KeyOf(s, pid), pid, FailUncertain(code), write);
      OnlyRows(s, Apply(s, Fail(pid, write)), rows, pid,
        if told == Updated then Ended(Failed(code, None)) else AtSecondFail)
  {
  }

  lemma SecondFailIs(s: System, pid: Token, write: Write)
    requires At(s, pid, AtSecondFail)
    ensures var (rows, told) := Cas(s.rows, KeyOf(s, pid), pid, FailUncertain(ReconciliationRequired), write);
      OnlyRows(s, Apply(s, SecondFail(pid, write)), rows, pid, Ended(Failed(ReconciliationRequired, None)))
  {
  }

  /** The state in which a new request has tried its insert. */
  lemma InsertedIs(s: System, pid: Token, input: Input, write: Write)
    requires pid !in s.requests
    ensures var t := Apply(Apply(s, Begin(pid, input)), Insert(pid, write));
      && t.rows == (if write == Rejected then s.rows else InsertIntent(s.rows, input, pid, s.now + s.lease))
      && t.charges == s.charges && t.calls == s.calls
      && t.now == s.now && t.lease == s.lease && t.retention == s.retention
      && pid in t.requests && t.requests[pid].input == input
      && t.requests[pid].pc == (if write == Acked then AtReadBack else Ended(Refused(ReservationUnavailable, None)))
  {
  }

  class Service {
    const table: Table
    var charges: seq<Charge>
    var calls: seq<StripeCall>
    const now: Time
    const lease: Time
    const retention: Time

    constructor (table: Table, charges: seq<Charge>, now: Time, lease: Time, retention: Time)
      ensures this.table == table && this.charges == charges && calls == []
    {
      this.table, this.charges, this.calls := table, charges, [];
      this.now, this.lease, this.retention := now, lease, retention;
    }

    ghost predicate Mirrors(s: System)
      reads this, table
    {
      && s.rows == table.rows && s.charges == charges && s.calls == calls
      && s.now == now && s.lease == lease && s.retention == retention
    }

    /** MarkEffect, ObservePayment and FailIntent are this statement. */
    method CasIntent(key: Key, pid: Token, change: Change, write: Write) returns (told: CasResult)
      modifies table
      ensures (table.rows, told) == Cas(old(table.rows), key, pid, change, write)
    {
      told := table.CasPurchaseIntent(key, pid, change, write);
    }

    /** CompleteCharge: the charge and the terminal row in one transaction. */
    method CompleteCharge(key: Key, pid: Token, charge: Charge, isNew: bool, write: Write, ghost s: System)
      returns (acked: bool)
      requires Mirrors(s) && pid in s.requests && key == InputKey(s.requests[pid].input)
      modifies this`charges, table
      ensures var (t, told) := CompleteTx(s, pid, charge, isNew, write); Mirrors(t) && acked == told
    {
      if write == Rejected { return false; }
      if isNew && ChargeConflict(charges, charge) { return false; }
      if !Owns(table.rows, key, pid, {Executing}) { return false; }
      var stored := if isNew then charge.(id := |charges| + 1) else charge;
      var told := table.CasPurchaseIntent(key, pid, Record(stored.purchaseId, ChargeBody(stored), now + retention),
        Acked);
      if isNew { charges := charges + [stored]; }
      acked := write == Acked;
    }

    /** Reserve: the winner goes on, a loser holds the row it read. */
    method Reserve(pid: Token, input: Input, o: Outcomes, ghost s: System) returns (existing: Option<Row>, won: bool)
      requires Mirrors(s) && pid !in s.requests
      modifies table
      ensures won ==> existing.Some?
      ensures existing.Some? ==> IsPurchase(existing.value)
      ensures var t := Run(s, ReserveScript(pid, input, o));
        && Mirrors(t) && pid in t.requests && t.requests[pid].input == input
        && t.requests[pid].pc == (if existing.None? then Ended(Refused(ReservationUnavailable, None))
                                  else if won then AtRecheck
                                  else if Purgeable(existing.value, now) then AtDropBody(existing.value)
                                  else AtReplay(existing.value))
    {
      RunThree(s, Begin(pid, input), Insert(pid, o.insert), ReadBack(pid, o.readBack));
      InsertedIs(s, pid, input, o.insert);
      existing, won := table.ReservePurchaseIntent(input, pid, now, lease, o.insert, o.readBack);
    }

    /** The answer to a request that lost the reservation. */
    method AnswerLoser(pid: Token, input: Input, row: Row, o: Outcomes, ghost s: System) returns (reply: Reply)
      requires IsPurchase(row) && Mirrors(s) && pid in s.requests && s.requests[pid].input == input
      requires s.requests[pid].pc == if Purgeable(row, now) then AtDropBody(row) else AtReplay(row)
      modifies table
      ensures var t := Run(s, ReplayScript(pid, o));
              Mirrors(t) && pid in t.requests && t.requests[pid].pc == Ended(reply)
    {
      RunTwo(s, DropExpiredBody(pid, o.dropBody), AnswerReplay(pid));
      var copy := row;
      if Purgeable(row, now) {
        if o.dropBody != Rejected { table.rows := DropBody(table.rows, InputKey(input)); }
        if o.dropBody != Acked { return Refused(ReservationUnavailable, None); }
        copy := row.(body := None);
      }
      reply := ReplayIntent(copy, RequestHash(input), now);
    }

    /** The obligation index is consulted before anything else happens. */
    method RecheckObligation(pid: Token, input: Input, o: Outcomes, ghost s: System) returns (reply: Option<Reply>)
      requires Mirrors(s) && pid in s.requests && s.requests[pid].input == input && s.requests[pid].pc == AtRecheck
      modifies table
      ensures var t := Run(s, RecheckScript(pid, o));
        && Mirrors(t) && pid in t.requests && t.requests[pid].input == input
        && t.requests[pid].pc == (if reply.Some? then Ended(reply.value) else AtPrepare)
    {
      RunTwo(s, Recheck(pid, o.recheck), Abandon(pid, o.abandon));
      var existing := FindCharge(charges, input.userId, input.intent);
      if o.recheck && existing.None? { return None; }
      var code := LookupUnavailable;
      if o.recheck {
        code := ResultBodyExpired;
        if existing.value.requestHash != Some(RequestHash(input)) || existing.value.hashVersion != Some(1) {
          code := TermsConflict;
        }
      }
      var ignored := CasIntent(InputKey(input), pid, FailUncertain(code), o.abandon);
      reply := Some(Failed(code, None));
    }

    /** The checks before the provider, then MarkEffect. The effect flag is set
        before the write, so a lost acknowledgement is never "not charged". */
    method MarkEffect(pid: Token, input: Input, o: Outcomes, ghost s: System) returns (failure: Option<Failure>)
      requires Mirrors(s) && pid in s.requests && s.requests[pid].input == input && s.requests[pid].pc == AtPrepare
      modifies table
      ensures var t := Run(s, MarkScript(pid, o));
        && Mirrors(t) && pid in t.requests && t.requests[pid].input == input
        && (if failure.Some? then
              t.requests[pid].pc == FailureOf(failure.value)
            else t.requests[pid].pc == AtStripe && t.requests[pid].amounts == o.amounts)
    {
      RunTwo(s, Prepare(pid, o.prepared, o.amounts), Mark(pid, o.mark));
      var effect := false;
      if !o.prepared { return Some(Failing(effect, false)); }
      effect := true;
      var told := CasIntent(InputKey(input), pid, MarkExecuting, o.mark);
      failure := if told != Updated then Some(Failing(effect, false)) else None;
    }

    /** The provider call and ObservePayment. */
    method CallProvider(pid: Token, input: Input, o: Outcomes, ghost s: System) returns (failure: Option<Failure>)
      requires Mirrors(s) && pid in s.requests && s.requests[pid].input == input && s.requests[pid].pc == AtStripe
        && s.requests[pid].amounts == o.amounts
      modifies this`calls, table
      ensures calls == old(calls) + [StripeCall(pid, InputKey(input), o.provider)]
      ensures var t := Run(s, CallScript(pid, o));
        && Mirrors(t) && pid in t.requests && t.requests[pid].input == input
        && (if failure.Some? then
              t.requests[pid].pc == FailureOf(failure.value)
            else
              o.provider.ProviderIntent?
                && t.requests[pid] == Request(input, o.amounts, o.provider.id, AtLookup(o.provider.status)))
    {
      RunTwo(s, CallStripe(pid, o.provider), ObserveIntent(pid, o.observe));
      calls := calls + [StripeCall(pid, InputKey(input), o.provider)];
      if o.provider == ProviderError || o.provider.id == "" { return Some(Failing(true, false)); }
      var told := CasIntent(InputKey(input), pid, Observe(o.provider.id, o.provider.status), o.observe);
      failure := if told != Updated then Some(Failing(true, told == DuplicateKey)) else None;
    }

    /** Which charge to record: reuse of the payment intent with full evidence,
        or a new one, with its escrow job when the caller supplied a chip. */
    method ChooseCharge(pid: Token, input: Input, o: Outcomes, ghost s: System)
      returns (failure: Option<Failure>, charge: Charge, isNew: bool)
      requires Mirrors(s) && pid in s.requests && o.provider.ProviderIntent?
      requires s.requests[pid] == Request(input, o.amounts, o.provider.id, AtLookup(o.provider.status))
      ensures var t := Run(s, RecordScript(pid, o));
        && Mirrors(t) && pid in t.requests && t.requests[pid].input == input
        && t.requests[pid].pc
           == (if failure.Some? then FailureOf(failure.value) else AtComplete(charge, isNew))
    {
      RunTwo(s, LookupIntent(pid, o.lookup), SubmitEscrow(pid, o.escrow, o.job));
      ghost var found := Apply(s, LookupIntent(pid, o.lookup));
      assert Mirrors(found) && pid in found.requests
        && found.requests[pid].(pc := AtEscrow) == s.requests[pid].(pc := AtEscrow);
      isNew := true;
      charge := NewCharge(Request(input, o.amounts, o.provider.id, AtEscrow), pid,
        EscrowColumns(PaidPendingEscrow, None, "", input.nonce, ""));
      if !o.lookup { return Some(Failing(true, false)), charge, isNew; }
      var previous := FindByPayment(charges, o.provider.id);
      if previous.Some? {
        if !SameObligation(previous.value, input) { return Some(Failing(true, true)), charge, isNew; }
        return None, previous.value, false;
      }
      if o.provider.status != "succeeded" { return Some(Failing(true, false)), charge, isNew; }
      if input.chipId != "" {
        if !o.escrow { return Some(Failing(true, false)), charge, isNew; }
        charge := charge.(escrow := EscrowColumns(EscrowOpening, o.job, input.chipId, input.nonce, ""));
      }
      failure := None;
    }

    /** The deferred handler after the provider may have been called. */
    method DeferredUncertain(pid: Token, input: Input, code: Code, o: Outcomes, ghost s: System) returns (reply: Reply)
      requires Mirrors(s) && pid in s.requests && s.requests[pid].input == input
        && s.requests[pid].pc == AtFail(true, code)
      modifies table
      ensures var t := Apply(Apply(s, Fail(pid, o.fail)), SecondFail(pid, o.secondFail));
              Mirrors(t) && pid in t.requests && t.requests[pid].pc == Ended(reply)
    {
      UncertainFailIs(s, pid, o.fail);
      var told := CasIntent(InputKey(input), pid, FailUncertain(code), o.fail);
      ghost var t := Apply(s, Fail(pid, o.fail));
      if told == Updated {
        EndedNoop(t, SecondFail(pid, o.secondFail));
        return Failed(code, None);
      }
      SecondFailIs(t, pid, o.secondFail);
      var ignored := CasIntent(InputKey(input), pid, FailUncertain(ReconciliationRequired), o.secondFail);
      reply := Failed(ReconciliationRequired, None);
    }

    /** The deferred handler when the provider was certainly not called. */
    method DeferredClean(pid: Token, input: Input, o: Outcomes, ghost s: System) returns (reply: Reply)
      requires Mirrors(s) && pid in s.requests && s.requests[pid].input == input
        && s.requests[pid].pc == AtFail(false, NotChargedCode)
      modifies table
      ensures var t := Apply(Apply(s, Fail(pid, o.fail)), SecondFail(pid, o.secondFail));
              Mirrors(t) && pid in t.requests && t.requests[pid].pc == Ended(reply)
    {
      CleanFailIs(s, pid, o.fail);
      var body := CleanBody(input);
      var told := CasIntent(InputKey(input), pid, FailClean(NotChargedCode, 503, body, now + retention), o.fail);
      ghost var t := Apply(s, Fail(pid, o.fail));
      assert OnlyRows(s, t, table.rows, pid,
                      if told == Updated then Ended(Failed(NotChargedCode, Some(body))) else AtSecondFail);
      if told == Updated {
        EndedNoop(t, SecondFail(pid, o.secondFail));
        return Failed(NotChargedCode, Some(body));
      }
      SecondFailIs(t, pid, o.secondFail);
      var ignored := CasIntent(InputKey(input), pid, FailUncertain(ReconciliationRequired), o.secondFail);
      reply := Failed(ReconciliationRequired, None);
    }

    /** Record the charge; on any failure, run the deferred handler. */
    method RecordOrFail(pid: Token, input: Input, failure: Option<Failure>, charge: Charge, isNew: bool, o: Outcomes,
        ghost s: System)
      returns (reply: Reply)
      requires Mirrors(s) && pid in s.requests && s.requests[pid].input == input
      requires s.requests[pid].pc
        == (if failure.Some? then FailureOf(failure.value) else AtComplete(charge, isNew))
      modifies this`charges, table
      ensures var t := Run(s, DeferScript(pid, o));
              Mirrors(t) && pid in t.requests && t.requests[pid].pc == Ended(reply)
    {
      RunThree(s, Complete(pid, o.complete), Fail(pid, o.fail), SecondFail(pid, o.secondFail));
      ghost var t := Apply(s, Complete(pid, o.complete));
      var effect, code := true, ReconciliationRequired;
      if failure.None? {
        var stored := if isNew then charge.(id := |charges| + 1) else charge;
        var acked := CompleteCharge(InputKey(input), pid, charge, isNew, o.complete, s);
        if acked {
          EndedNoop(t, Fail(pid, o.fail));
          EndedNoop(t, SecondFail(pid, o.secondFail));
          return Completed(ChargeBody(stored));
        }
      } else {
        effect, code := failure.value.effect, DeferredCode(failure.value.effect, failure.value.conflict);
      }
      assert Mirrors(t) && t.requests[pid].pc == AtFail(effect, code) && t.requests[pid].input == input;
      if effect {
        reply := DeferredUncertain(pid, input, code, o, t);
      } else {
        reply := DeferredClean(pid, input, o, t);
      }
    }

    /** CreatePurchaseCharge. Whatever the outcomes, the rows, charges and
        provider calls it leaves and the answer it gives are those of its
        statements run in the transition system. */
    method CreatePurchaseCharge(pid: Token, input: Input, o: Outcomes, ghost s: System) returns (reply: Reply)
      requires Mirrors(s) && pid !in s.requests
      modifies this, table
      ensures var t := Run(s, Script(pid, input, o));
              Mirrors(t) && pid in t.requests && t.requests[pid].pc == Ended(reply)
    {
      ghost var s1 := Run(s, ReserveScript(pid, input, o));
      ghost var s2 := Run(s1, ReplayScript(pid, o));
      ghost var s3 := Run(s2, RecheckScript(pid, o));
      ghost var s4 := Run(s3, MarkScript(pid, o));
      ghost var s5 := Run(s4, CallScript(pid, o));
      ghost var s6 := Run(s5, RecordScript(pid, o));
      Stages(s, pid, input, o);
      var existing, won := Reserve(pid, input, o, s);
      if existing.None? {
        EndedSkips(s1, pid, o);
        return Refused(ReservationUnavailable, None);
      }
      if !won {
        reply := AnswerLoser(pid, input, existing.value, o, s1);
        EndedSkips(s2, pid, o);
        return;
      }
      WinnerSkips(s1, pid, o);
      var early := RecheckObligation(pid, input, o, s2);
      if early.Some? {
        EndedSkips(s3, pid, o);
        return early.value;
      }
      var charge, isNew := NewCharge(Request(input, "", "", AtEscrow), pid,
        EscrowColumns(PaidPendingEscrow, None, "", 0, "")), true;
      var failure := MarkEffect(pid, input, o, s3);
      if failure.Some? {
        FailingSkips(s4, pid, o);
      } else {
        failure := CallProvider(pid, input, o, s4);
        if failure.Some? {
          FailingSkips(s5, pid, o);
        } else {
          failure, charge, isNew := ChooseCharge(pid, input, o, s5);
        }
      }
      reply := RecordOrFail(pid, input, failure, charge, isNew, o, s6);
    }
  }
}
