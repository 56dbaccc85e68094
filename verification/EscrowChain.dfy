/** The chain's own account of its escrows: a history of lifecycle events and
    the state obtained by folding them in chain order. */
module EscrowChain {
  import opened Common

  datatype Event =
    | Created(id: nat, buyer: string, seller: string, edition: nat, chip: string, unlockAt: string, certificate: nat,
      height: nat)
    | ReEscrowed(id: nat, certificate: nat, chip: string, buyer: string, seller: string, unlockAt: string, height: nat)
    | Released(id: nat, reason: nat, height: nat)
    | Voided(id: nat, height: nat)
    | Claimed(id: nat, height: nat)

  const PENDING: nat := 0
  const RELEASED: nat := 1
  const VOIDED: nat := 2

  datatype Escrow = Escrow(
    buyer: string, seller: string, edition: nat, chip: string, unlockAt: string, certificate: nat,
    status: nat, reason: Option<nat>, claimed: bool)

  /** All escrows so far, and the edition each certificate was minted for. */
  datatype Chain = Chain(escrows: map<nat, Escrow>, editions: map<nat, nat>)

  /** The contract's preconditions: an id is created once, a fresh certificate is
      minted by EscrowCreated, only a pending escrow is released or voided, and
      an escrow is claimed once. */
  predicate Allowed(c: Chain, e: Event) {
    match e
    case Created(id, _, _, _, _, _, certificate, _) => id !in c.escrows && certificate !in c.editions
    case ReEscrowed(id, certificate, _, _, _, _, _) => id !in c.escrows && certificate in c.editions
    case Released(id, _, _) => id in c.escrows && c.escrows[id].status == PENDING
    case Voided(id, _) => id in c.escrows && c.escrows[id].status == PENDING
    case Claimed(id, _) => id in c.escrows && !c.escrows[id].claimed
  }

  function Next(c: Chain, e: Event): Chain
    requires Allowed(c, e)
  {
    match e
    case Created(id, buyer, seller, edition, chip, unlockAt, certificate, _) =>
      Chain(c.escrows[id := Escrow(buyer, seller, edition, chip, unlockAt, certificate, PENDING, None, false)],
            c.editions[certificate := edition])
    case ReEscrowed(id, certificate, chip, buyer, seller, unlockAt, _) =>
      c.(escrows := c.escrows[id :=
        Escrow(buyer, seller, c.editions[certificate], chip, unlockAt, certificate, PENDING, None, false)])
    case Released(id, reason, _) =>
        c.(escrows := c.escrows[id := c.escrows[id].(status := RELEASED, reason := Some(reason))])
    case Voided(id, _) => c.(escrows := c.escrows[id := c.escrows[id].(status := VOIDED)])
    case Claimed(id, _) => c.(escrows := c.escrows[id := c.escrows[id].(claimed := true)])
  }

  predicate Legal(h: seq<Event>)
    decreases |h|, 0
  {
    h == [] || (Legal(h[..|h| - 1]) && Allowed(Fold(h[..|h| - 1]), h[|h| - 1]))
  }

  function Fold(h: seq<Event>): Chain
    requires Legal(h)
    decreases |h|, 1
  {
    if h == [] then Chain(map[], map[]) else Next(Fold(h[..|h| - 1]), h[|h| - 1])
  }

  /** What a state owes to an event of its history. */
  ghost predicate Reflects(c: Chain, e: Event) {
    e.id in c.escrows &&
    var x := c.escrows[e.id];
    match e
    case Created(id, buyer, seller, edition, chip, unlockAt, certificate, _) =>
      && x.(status := PENDING, reason := None, claimed := false)
         == Escrow(buyer, seller, edition, chip, unlockAt, certificate, PENDING, None, false)
      && certificate in c.editions && c.editions[certificate] == edition
    case ReEscrowed(id, certificate, chip, buyer, seller, unlockAt, _) =>
      && certificate in c.editions
      && x.(status := PENDING, reason := None, claimed := false)
         == Escrow(buyer, seller, c.editions[certificate], chip, unlockAt, certificate, PENDING, None, false)
    case Released(_, reason, _) => x.status == RELEASED && x.reason == Some(reason)
    case Voided(_, _) => x.status == VOIDED && x.reason == None
    case Claimed(_, _) => x.claimed
  }

  /** Every certificate has one edition; a pending or voided escrow has no reason. */
  ghost predicate Consistent(c: Chain) {
    forall id :: id in c.escrows ==>
      var x := c.escrows[id];
      && x.certificate in c.editions && c.editions[x.certificate] == x.edition
      && (x.status == PENDING || x.status == RELEASED || x.status == VOIDED)
      && (x.status == RELEASED <==> x.reason.Some?)
  }

  lemma {:induction false} FoldConsistent(h: seq<Event>)
    requires Legal(h)
    ensures Consistent(Fold(h))
  {
    if h != [] { FoldConsistent(h[..|h| - 1]); }
  }

  lemma {:induction false} PrefixLegal(h: seq<Event>, m: nat)
    requires Legal(h) && m <= |h|
    ensures Legal(h[..m])
    decreases |h|
  {
    if m == |h| {
      assert h[..m] == h;
    } else {
      PrefixLegal(h[..|h| - 1], m);
      assert h[..|h| - 1][..m] == h[..m];
    }
  }

  /** What later events leave of an escrow. */
  ghost predicate Grows(a: Chain, b: Chain) {
    && (forall k :: k in a.editions ==> k in b.editions && b.editions[k] == a.editions[k])
    && (forall id :: id in a.escrows ==>
          id in b.escrows &&
          var x, y := a.escrows[id], b.escrows[id];
          && y == x.(status := y.status, reason := y.reason, claimed := y.claimed)
          && (x.status != PENDING ==> y.status == x.status && y.reason == x.reason)
          && (x.claimed ==> y.claimed))
  }

  lemma NextGrows(c: Chain, e: Event)
    requires Consistent(c) && Allowed(c, e)
    ensures Grows(c, Next(c, e))
  {
  }

  lemma GrowsTransitive(a: Chain, b: Chain, c: Chain)
    requires Grows(a, b) && Grows(b, c)
    ensures Grows(a, c)
  {
  }

  lemma {:induction false} PrefixGrows(h: seq<Event>, m: nat)
    requires Legal(h) && m <= |h|
    ensures Legal(h[..m]) && Grows(Fold(h[..m]), Fold(h))
    decreases |h|
  {
    PrefixLegal(h, m);
    if m == |h| {
      assert h[..m] == h;
    } else {
      PrefixGrows(h[..|h| - 1], m);
      assert h[..|h| - 1][..m] == h[..m];
      FoldConsistent(h[..|h| - 1]);
      NextGrows(Fold(h[..|h| - 1]), h[|h| - 1]);
      GrowsTransitive(Fold(h[..m]), Fold(h[..|h| - 1]), Fold(h));
    }
  }

  lemma ReflectsGrows(a: Chain, b: Chain, e: Event)
    requires Grows(a, b) && Reflects(a, e)
    ensures Reflects(b, e)
  {
  }

  lemma AtIndex(h: seq<Event>, i: nat)
    requires Legal(h) && i < |h|
    ensures Legal(h[..i]) && Allowed(Fold(h[..i]), h[i]) && Legal(h[..i + 1])
      && Fold(h[..i + 1]) == Next(Fold(h[..i]), h[i])
  {
    PrefixLegal(h, i + 1);
    assert h[..i + 1][..i] == h[..i];
  }

  lemma EventReflected(h: seq<Event>, e: Event)
    requires Legal(h) && e in h
    ensures Reflects(Fold(h), e)
  {
    var i :| 0 <= i < |h| && h[i] == e;
    AtIndex(h, i);
    FoldConsistent(h[..i]);
    PrefixGrows(h, i + 1);
    ReflectsGrows(Fold(h[..i + 1]), Fold(h), e);
  }

  /** Whatever the state says about an escrow, some event said it. */
  ghost predicate HasEvent(h: seq<Event>, id: nat, status: nat) {
    exists i :: 0 <= i < |h| && h[i].id == id && (if status == RELEASED then h[i].Released? else h[i].Voided?)
  }

  ghost predicate HasClaim(h: seq<Event>, id: nat) {
    exists i :: 0 <= i < |h| && h[i].id == id && h[i].Claimed?
  }

  lemma {:induction false} StatusHasEvent(h: seq<Event>, id: nat)
    requires Legal(h) && id in Fold(h).escrows
    ensures Fold(h).escrows[id].status != PENDING ==> HasEvent(h, id, Fold(h).escrows[id].status)
    ensures Fold(h).escrows[id].claimed ==> HasClaim(h, id)
    decreases |h|
  {
    var p := h[..|h| - 1];
    var e := h[|h| - 1];
    if id in Fold(p).escrows {
      StatusHasEvent(p, id);
      var s := Fold(p).escrows[id].status;
      if s != PENDING {
        var i :| 0 <= i < |p| && p[i].id == id && (if s == RELEASED then p[i].Released? else p[i].Voided?);
        assert h[i] == p[i];
      }
      if Fold(p).escrows[id].claimed {
        var i :| 0 <= i < |p| && p[i].id == id && p[i].Claimed?;
        assert h[i] == p[i];
      }
    }
    assert h[|h| - 1].id == e.id;
  }

  lemma GrowsAcross(h: seq<Event>, i: nat, k: nat)
    requires Legal(h) && i <= k <= |h|
    ensures Legal(h[..i]) && Legal(h[..k]) && Grows(Fold(h[..i]), Fold(h[..k]))
  {
    PrefixLegal(h, k);
    PrefixLegal(h, i);
    PrefixGrows(h[..k], i);
    assert h[..k][..i] == h[..i];
  }

  /** The event that created an escrow precedes every other event about it. */
  lemma CreationComesFirst(h: seq<Event>, k: nat, i: nat)
    requires Legal(h) && k < |h| && i < |h| && h[i].id == h[k].id
    requires h[k].Created? || h[k].ReEscrowed?
    requires !(h[i].Created? || h[i].ReEscrowed?)
    ensures k < i
  {
    AtIndex(h, i);
    AtIndex(h, k);
    if i < k { GrowsAcross(h, i, k); }
  }

  /** Two creations, two endings or two claims. */
  predicate SameKind(d: Event, e: Event) {
    || ((d.Created? || d.ReEscrowed?) && (e.Created? || e.ReEscrowed?))
    || ((d.Released? || d.Voided?) && (e.Released? || e.Voided?))
    || (d.Claimed? && e.Claimed?)
  }

  lemma NotAgain(h: seq<Event>, i: nat, j: nat)
    requires Legal(h) && i < j < |h| && h[i].id == h[j].id
    ensures !SameKind(h[i], h[j])
  {
    AtIndex(h, j);
    assert h[..j][i] == h[i];
    EventReflected(h[..j], h[i]);
  }

  /** An escrow is created once, ends once and is claimed once. */
  lemma OneOfItsKind(h: seq<Event>, d: Event, e: Event)
    requires Legal(h) && d in h && e in h && d.id == e.id && SameKind(d, e)
    ensures d == e
  {
    var i :| 0 <= i < |h| && h[i] == d;
    var j :| 0 <= j < |h| && h[j] == e;
    if i < j { NotAgain(h, i, j); }
    if j < i { NotAgain(h, j, i); }
  }

  lemma EventLeavesThePast(a: Chain, c: Chain, e: Event, id: nat)
    requires Grows(a, c) && Allowed(c, e) && id in a.escrows
    ensures id in Next(c, e).escrows
    ensures if e.id == id then Next(c, e).escrows[id] != a.escrows[id] else Next(c, e).escrows[id] == c.escrows[id]
  {
  }

  /** What the chain says of an escrow after the first n events. */
  ghost function EscrowAfter(h: seq<Event>, n: nat, id: nat): Option<Escrow>
    requires Legal(h) && n <= |h|
  {
    PrefixLegal(h, n);
    if id in Fold(h[..n]).escrows then Some(Fold(h[..n]).escrows[id]) else None
  }

  lemma AgreesOneFurther(h: seq<Event>, m: nat, n: nat, id: nat)
    requires Legal(h) && m <= n < |h| && EscrowAfter(h, m, id).Some?
    ensures EscrowAfter(h, n + 1, id) == EscrowAfter(h, m, id)
      <==> EscrowAfter(h, n, id) == EscrowAfter(h, m, id) && h[n].id != id
  {
    AtIndex(h, n);
    GrowsAcross(h, m, n);
    EventLeavesThePast(Fold(h[..m]), Fold(h[..n]), h[n], id);
  }

  predicate QuietBetween(h: seq<Event>, m: nat, n: nat, id: nat)
    requires n <= |h|
  {
    forall i :: m <= i < n ==> h[i].id != id
  }

  /** A view that agrees one event further exactly when the event is about another
      escrow. */
  ghost predicate StepAgrees(view: nat -> Option<Escrow>, h: seq<Event>, m: nat, k: nat, id: nat) {
    k < |h| && (view(k + 1) == view(m) <==> view(k) == view(m) && h[k].id != id)
  }

  lemma {:induction false} AgreesIffQuiet(view: nat -> Option<Escrow>, h: seq<Event>, m: nat, n: nat, id: nat)
    requires m <= n <= |h| && forall k: nat :: m <= k < n ==> StepAgrees(view, h, m, k, id)
    ensures view(n) == view(m) <==> QuietBetween(h, m, n, id)
    decreases n
  {
    if m < n {
      AgreesIffQuiet(view, h, m, n - 1, id);
      assert StepAgrees(view, h, m, n - 1, id);
      assert QuietBetween(h, m, n, id) <==> QuietBetween(h, m, n - 1, id) && h[n - 1].id != id;
    }
  }

  /** Two prefixes say the same of an escrow exactly if no event between them is
      about it. */
  lemma PrefixesAgreeIff(h: seq<Event>, m: nat, n: nat, id: nat)
    requires Legal(h) && m <= n <= |h| && EscrowAfter(h, m, id).Some?
    ensures EscrowAfter(h, n, id) == EscrowAfter(h, m, id) <==> QuietBetween(h, m, n, id)
  {
    var view := (k: nat) => if k <= |h| then EscrowAfter(h, k, id) else None;
    forall k: nat | m <= k < n ensures StepAgrees(view, h, m, k, id) {
      AgreesOneFurther(h, m, k, id);
    }
    AgreesIffQuiet(view, h, m, n, id);
  }
}
