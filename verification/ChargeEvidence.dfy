/** What protects the customer when a row or an index is not what the protocol left
    there: a lost reservation, a payment met again, and the unique indexes. */
module ChargeEvidence {
  import opened Common
  import opened PurchaseTypes
  import opened IdempotencyTable
  import opened Recovery
  import opened ChargeProtocol
  import opened ChargeInvariant
  import opened ChargeTheorems
  import opened ChargeService
  import ChargeAnswers
  import ChargeRecovery

  // ---- A lost reservation ----

  /** What a new call is told when the charge of its intent is there but its
      reservation is not. */
  function ToldOfTheCharge(c: Charge, input: Input, o: Outcomes): Reply {
    if o.insert != Acked || !o.readBack then Refused(ReservationUnavailable, None)
    else if !o.recheck then Failed(LookupUnavailable, None)
    else if c.requestHash != Some(RequestHash(input)) then Failed(TermsConflict, None)
    else Failed(ResultBodyExpired, None)
  }

  lemma RechecksTheCharge(s: System, t: System, pid: Token, input: Input, i: Intent, c: Charge, o: Outcomes)
    requires ChargeAnswers.Holds(s, t, pid, input, i) && t.requests[pid].pc == AtRecheck
    requires o.insert == Acked && o.readBack && c.hashVersion == Some(1)
    requires FindCharge(t.charges, input.userId, input.intent) == Some(c)
    ensures var u := Run(t, RecheckScript(pid, o));
      && u.calls == t.calls && u.charges == t.charges
      && pid in u.requests && u.requests[pid].pc == Ended(ToldOfTheCharge(c, input, o))
  {
    RunTwo(t, Recheck(pid, o.recheck), Abandon(pid, o.abandon));
  }

  /** Losing a reservation never makes a customer pay twice: if the row of a recorded
      purchase vanished, a new call for its intent, whatever its terms and whatever is
      lost on its way, calls nobody and charges nothing. */
  lemma LostReservationIsNotPaidAgain(s: System, j: nat, pid: Token, input: Input, o: Outcomes)
    requires Reachable(s) && j < |s.charges| && IsFor(s.charges[j], input.userId, input.intent)
    requires pid !in s.requests
    ensures var t := Run(s.(rows := s.rows - {InputKey(input)}), Script(pid, input, o));
      && t.calls == s.calls && t.charges == s.charges
      && pid in t.requests && t.requests[pid].pc == Ended(ToldOfTheCharge(s.charges[j], input, o))
  {
    ReachableInv(s);
    ChargeRecovery.FindsTheCharge(s, input.userId, input.intent, j);
    assert ChargeOk(s, s.charges[j]);
    var lost := s.(rows := s.rows - {InputKey(input)});
    Stages(lost, pid, input, o);
    ChargeAnswers.Reserves(lost, pid, input, o);
    var s1 := Run(lost, ReserveScript(pid, input, o));
    if o.insert != Acked || !o.readBack {
      ChargeAnswers.NotBegun(lost, pid, input, o);
      EndedSkips(s1, pid, o);
    } else {
      WinnerSkips(s1, pid, o);
      RechecksTheCharge(lost, s1, pid, input, ChargeAnswers.Reserved0(lost, pid, input), s.charges[j], o);
      EndedSkips(Run(s1, RecheckScript(pid, o)), pid, o);
    }
  }

  // ---- A payment met again ----

  /** The charge is this very request's own. */
  predicate SameEvidence(c: Charge, input: Input) {
    && c.userId == input.userId && c.intent == Some(input.intent) && c.operation == Some(PURCHASE_OPERATION)
    && c.requestHash == Some(RequestHash(input)) && c.hashVersion == Some(1)
  }

  lemma {:induction false} FindsByPayment(charges: seq<Charge>, j: nat)
    requires j < |charges| && forall i :: 0 <= i < j ==> charges[i].paymentIntent != charges[j].paymentIntent
    ensures FindByPayment(charges, charges[j].paymentIntent) == Some(charges[j])
    decreases |charges|
  {
    if j > 0 { FindsByPayment(charges[1..], j - 1); }
  }

  /** In any state at all: a payment that already has a charge is answered with that
      charge exactly on complete matching evidence, and as a conflict otherwise; a
      second charge is never made of it, whatever its status. */
  lemma ReuseNeedsFullEvidence(s: System, pid: Token, j: nat, write: Write)
    requires pid in s.requests && s.requests[pid].pc.AtLookup? && s.requests[pid].input.intent != ""
    requires j < |s.charges| && s.charges[j].paymentIntent == s.requests[pid].paymentIntent
    requires forall i :: 0 <= i < j ==> s.charges[i].paymentIntent != s.charges[j].paymentIntent
    ensures var c := s.charges[j];
      var t := Apply(s, LookupIntent(pid, true));
      var u := Apply(t, Complete(pid, write));
      && pid in t.requests && pid in u.requests
      && t.requests[pid].pc == (if SameEvidence(c, s.requests[pid].input) then AtComplete(c, false)
                                else AtFail(true, PaymentIntentConflict))
      && u.charges == s.charges
      && (u.requests[pid].pc == Ended(Completed(ChargeBody(c))) <==>
            && SameEvidence(c, s.requests[pid].input) && write == Acked
            && Owns(s.rows, KeyOf(s, pid), pid, {Executing}))
  {
    FindsByPayment(s.charges, j);
  }

  // ---- The unique indexes ----

  /** Two charges share no payment, no purchase id and no identity. */
  predicate Apart(c: Charge, d: Charge) {
    && c.paymentIntent != d.paymentIntent && c.purchaseId != d.purchaseId
    && !(c.intent.Some? && c.operation.Some? && c.userId == d.userId && c.operation == d.operation
         && c.intent == d.intent)
  }

  predicate AllApart(charges: seq<Charge>) {
    forall i, j :: 0 <= i < j < |charges| ==> Apart(charges[i], charges[j])
  }

  /** A charge that joins the others has passed the indexes. */
  lemma JoinsApart(charges: seq<Charge>, c: Charge)
    requires AllApart(charges) && forall i :: 0 <= i < |charges| ==> Apart(charges[i], c)
    ensures AllApart(charges + [c])
  {
  }

  lemma NoConflictIsApart(charges: seq<Charge>, c: Charge, id: nat)
    requires !ChargeConflict(charges, c)
    ensures forall i :: 0 <= i < |charges| ==> Apart(charges[i], c.(id := id))
  {
  }

  lemma RewrittenApart(charges: seq<Charge>, index: nat, columns: EscrowColumns)
    requires AllApart(charges) && index < |charges|
    ensures AllApart(charges[index := charges[index].(escrow := columns)])
  {
    var after := charges[index := charges[index].(escrow := columns)];
    forall i, j | 0 <= i < j < |after| ensures Apart(after[i], after[j]) {
      assert Apart(charges[i], charges[j]);
    }
  }

  lemma StepStaysApart(s: System, a: Action)
    requires AllApart(s.charges)
    ensures AllApart(Apply(s, a).charges)
  {
    match a
    case Complete(pid, write) =>
      if pid in s.requests && s.requests[pid].pc.AtComplete? && !ChargeConflict(s.charges, s.requests[pid].pc.charge) {
        var c := s.requests[pid].pc.charge;
        NoConflictIsApart(s.charges, c, |s.charges| + 1);
        JoinsApart(s.charges, c.(id := |s.charges| + 1));
      }
    case UpdateEscrow(index, columns) => if index < |s.charges| { RewrittenApart(s.charges, index, columns); }
    case _ => QuietStep(s, a);
  }

  lemma QuietStep(s: System, a: Action)
    requires !a.Complete? && !a.UpdateEscrow?
    ensures Apply(s, a).charges == s.charges
  {
  }

  /** From any table of distinct charges, no run, however many requests race, ever
      records a payment, a purchase id or an intent twice. */
  lemma {:induction false} ChargesStayApart(s: System, actions: seq<Action>)
    requires AllApart(s.charges)
    ensures AllApart(Run(s, actions).charges)
    decreases |actions|
  {
    if actions != [] {
      StepStaysApart(s, actions[0]);
      ChargesStayApart(Apply(s, actions[0]), actions[1..]);
    }
  }
}
