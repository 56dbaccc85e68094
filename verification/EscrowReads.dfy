/** Projection-first reads: what is served from the read model and when the
    caller is sent to the chain instead (None). */
module EscrowReads {
  import opened Common
  import opened EscrowChain
  import opened EscrowProjection
  import opened ProjectionConvergence

  datatype Summary = Summary(
    id: nat, buyer: string, seller: string, edition: nat, chip: string, unlockAt: string, certificate: nat,
    status: nat, reason: Option<nat>, claimed: bool, claimedAt: Option<string>)

  function RowToSummary(id: nat, row: Row): Summary {
    Summary(id, row.buyer, row.seller, if row.edition.Some? then row.edition.value else 0, row.chip, row.unlockAt,
            row.certificate, row.status, row.reason, row.claimed, row.claimedAt)
  }

  function GetEscrow(t: Table, id: nat): Option<Summary> {
    if id !in t || t[id].incomplete then None else Some(RowToSummary(id, t[id]))
  }

  datatype Filter = ByBuyer(buyer: string) | ByEdition(edition: nat) | BySeller(seller: string)

  predicate Selects(f: Filter, row: Row) {
    match f
    case ByBuyer(buyer) => row.buyer == buyer
    case ByEdition(edition) => row.edition == Some(edition)
    case BySeller(seller) => row.seller == seller
  }

  predicate Concerns(f: Filter, x: Escrow) {
    match f
    case ByBuyer(buyer) => x.buyer == buyer
    case ByEdition(edition) => x.edition == edition
    case BySeller(seller) => x.seller == seller
  }

  /** ORDER BY escrow_id ASC. */
  function Ascending(ids: set<nat>): (r: seq<nat>)
    ensures forall id :: id in r <==> id in ids
    ensures forall i, j :: 0 <= i < j < |r| ==> r[i] < r[j]
  {
    if ids == {} then [] else [Least(ids)] + Ascending(ids - {Least(ids)})
  }

  function Selected(t: Table, f: Filter): set<nat> {
    set id | id in t && Selects(f, t[id])
  }

  /** The escrows of the chain a filter asks for. */
  function Concerned(c: Chain, f: Filter): set<nat> {
    set id | id in c.escrows && Concerns(f, c.escrows[id])
  }

  predicate HasCreateColumns(t: Table, id: nat) {
    id in t && t[id].source != Stub
  }

  /** The table knows of the escrow what the filter goes by. */
  predicate Knows(t: Table, f: Filter, id: nat) {
    if f.ByEdition? then id in t && t[id].edition.Some? else HasCreateColumns(t, id)
  }

  /** Those of them a read model can select. */
  function Selectable(c: Chain, t: Table, f: Filter): set<nat> {
    set id | id in Concerned(c, f) && Knows(t, f, id)
  }

  /** The summaries of rows, in the order of their ids. */
  function Summaries(t: Table, ids: seq<nat>): (r: seq<Summary>)
    requires forall id :: id in ids ==> id in t
    ensures |r| == |ids| && forall i :: 0 <= i < |r| ==> r[i] == RowToSummary(ids[i], t[ids[i]])
  {
    seq(|ids|, i requires 0 <= i < |ids| => RowToSummary(ids[i], t[ids[i]]))
  }

  function ListEscrows(t: Table, f: Filter): Option<seq<Summary>> {
    if t == map[] || exists id :: id in t && Selects(f, t[id]) && t[id].incomplete then None
    else Some(Summaries(t, Ascending(Selected(t, f))))
  }

  /** The ids a listing names. */
  function Ids(listing: seq<Summary>): (r: seq<nat>)
    ensures |r| == |listing| && forall i :: 0 <= i < |r| ==> r[i] == listing[i].id
  {
    seq(|listing|, i requires 0 <= i < |listing| => listing[i].id)
  }

  lemma ListedIds(t: Table, f: Filter)
    ensures ListEscrows(t, f).Some? ==> Ids(ListEscrows(t, f).value) == Ascending(Selected(t, f))
  {
  }

  /** A single read never serves a wrong create-time field, at any moment, and
      once the escrow's events are handled it serves the chain's whole summary. */
  lemma GetServesTheChain(w: World, actions: seq<Action>, id: nat)
    requires WorldOk(w) && GetEscrow(Run(w, EMPTY, actions).rows, id).Some?
    ensures var s := Run(w, EMPTY, actions);
      var served := GetEscrow(s.rows, id).value;
      && id in Now(w).escrows
      && var x := Now(w).escrows[id];
         && served.id == id && served.buyer == x.buyer && served.seller == x.seller && served.edition == x.edition
         && served.chip == x.chip && served.unlockAt == x.unlockAt && served.certificate == x.certificate
         && (AppliedTo(w, s, id) ==>
               served.status == x.status && served.reason == x.reason && served.claimed == x.claimed)
  {
    CompleteRowsAreCreatedRight(w, actions, id);
    if AppliedTo(w, Run(w, EMPTY, actions), id) { ServedRowsConverge(w, actions, id); }
  }

  /** It serves a row exactly when its edition is known. */
  lemma GetIsServedIff(w: World, actions: seq<Action>, id: nat)
    requires WorldOk(w)
    ensures var t := Run(w, EMPTY, actions).rows; GetEscrow(t, id).Some? <==> id in t && t[id].edition.Some?
  {
    if id in Run(w, EMPTY, actions).rows { CompleteRowsAreCreatedRight(w, actions, id); }
  }

  lemma {:induction false} EscrowWasCreated(h: seq<Event>, id: nat)
    requires Legal(h) && id in Fold(h).escrows
    ensures exists e :: e in h && e.id == id && (e.Created? || e.ReEscrowed?)
    decreases |h|
  {
    var p := h[..|h| - 1];
    if id in Fold(p).escrows {
      EscrowWasCreated(p, id);
      var e :| e in p && e.id == id && (e.Created? || e.ReEscrowed?);
      assert e in h;
    } else {
      assert h[|h| - 1] in h;
    }
  }

  /** At every moment a row belongs to an escrow of the chain, and is right in
      everything it knows. Once all live events are handled, an escrow that any
      of them is about has a row; if the listener saw the whole history, so has
      every escrow, with its create columns. */
  lemma EveryEscrowHasARow(w: World, actions: seq<Action>, id: nat)
    requires WorldOk(w)
    ensures var s := Run(w, EMPTY, actions);
      && (id in s.rows ==>
            && id in Now(w).escrows
            && (s.rows[id].source != Stub ==> SameCreation(s.rows[id], Now(w).escrows[id]))
            && (s.rows[id].edition.Some? ==> s.rows[id].edition.value == Now(w).escrows[id].edition)
            && (s.rows[id].edition.Some? ==> s.rows[id].source != Stub)
            && (s.rows[id].incomplete <==> s.rows[id].edition.None?))
      && (AllApplied(w, s) && (exists e :: Live(w, e) && e.id == id) ==> id in s.rows)
      && (AllApplied(w, s) && w.cursor == 0 ==>
            (id in s.rows <==> id in Now(w).escrows) && (id in s.rows ==> s.rows[id].source != Stub))
  {
    RunKeepsInv(w, EMPTY, actions);
    var s := Run(w, EMPTY, actions);
    if id in s.rows { assert RowOk(w, s, id); }
    if AllApplied(w, s) && w.cursor == 0 && id in Now(w).escrows {
      assert w.history[0..] == w.history;
      EscrowWasCreated(w.history, id);
      var e :| e in w.history && e.id == id && (e.Created? || e.ReEscrowed?);
      assert e in s.applied && EventSeen(s.rows[e.id], e);
    }
  }

  /** At every moment, however the table was fed: a served listing is, in
      ascending order, exactly the escrows the filter asks for that the table
      knows enough of. So it never lists a wrong one. */
  lemma ListingServesTheResolvedChain(w: World, actions: seq<Action>, f: Filter)
    requires WorldOk(w) && ListEscrows(Run(w, EMPTY, actions).rows, f).Some?
    ensures var s := Run(w, EMPTY, actions);
      && Ids(ListEscrows(s.rows, f).value) == Ascending(Selectable(Now(w), s.rows, f))
      && forall id :: id in Ids(ListEscrows(s.rows, f).value) ==> id in Concerned(Now(w), f)
  {
    var s := Run(w, EMPTY, actions);
    ListedIds(s.rows, f);
    forall id ensures id in Selected(s.rows, f) <==> id in Selectable(Now(w), s.rows, f) {
      EveryEscrowHasARow(w, actions, id);
    }
    assert Selected(s.rows, f) == Selectable(Now(w), s.rows, f);
  }

  /** No row without create columns can match but for an empty name. */
  predicate Unnamed(f: Filter) {
    (f.ByBuyer? && f.buyer == "") || (f.BySeller? && f.seller == "")
  }

  /** At every moment a listing is served, and not left to the chain, exactly when the
      table has a row at all and each matching row has its edition. */
  lemma ListingIsServedIff(w: World, actions: seq<Action>, f: Filter)
    requires WorldOk(w)
    ensures var t := Run(w, EMPTY, actions).rows;
      ListEscrows(t, f).Some? <==>
        && t != map[]
        && (!f.ByEdition? ==>
              forall id :: id in Concerned(Now(w), f) && HasCreateColumns(t, id) ==> t[id].edition.Some?)
        && (Unnamed(f) ==> forall id :: id in t ==> t[id].source != Stub)
  {
    var t := Run(w, EMPTY, actions).rows;
    RunKeepsInv(w, EMPTY, actions);
    StubsAreBlank(w, EMPTY, actions);
    forall id | id in t
      ensures t[id].incomplete <==> t[id].edition.None?
      ensures t[id].source != Stub && !f.ByEdition? ==> (Selects(f, t[id]) <==> id in Concerned(Now(w), f))
      ensures t[id].source == Stub ==> t[id].incomplete && (Selects(f, t[id]) <==> Unnamed(f))
    {
      assert RowOk(w, Run(w, EMPTY, actions), id);
    }
  }

  /** The create columns of a stub are empty. */
  lemma {:induction false} StubsAreBlank(w: World, s: State, actions: seq<Action>)
    requires WorldOk(w) && Blank(s)
    ensures Blank(Run(w, s, actions))
    decreases |actions|
  {
    if actions != [] { StubsAreBlank(w, Apply(w, s, actions[0]), actions[1..]); }
  }

  predicate Blank(s: State) {
    forall id :: id in s.rows && s.rows[id].source == Stub ==> s.rows[id].buyer == "" == s.rows[id].seller
  }

  /** Every summary in a served listing has the chain's create columns, edition
      included, and, once the events of its escrow are handled, the chain's status,
      reason and claim; it is what a single read serves. */
  lemma ListedSummariesAreTheChains(w: World, actions: seq<Action>, f: Filter, i: nat)
    requires WorldOk(w) && ListEscrows(Run(w, EMPTY, actions).rows, f).Some?
    requires i < |ListEscrows(Run(w, EMPTY, actions).rows, f).value|
    ensures var s := Run(w, EMPTY, actions);
      var listed := ListEscrows(s.rows, f).value[i];
      && GetEscrow(s.rows, listed.id) == Some(listed) && listed.id in Now(w).escrows
      && var x := Now(w).escrows[listed.id];
         && Concerns(f, x)
         && listed.buyer == x.buyer && listed.seller == x.seller && listed.edition == x.edition
         && listed.chip == x.chip && listed.unlockAt == x.unlockAt && listed.certificate == x.certificate
         && (AppliedTo(w, s, listed.id) ==>
               listed.status == x.status && listed.reason == x.reason && listed.claimed == x.claimed)
  {
    var s := Run(w, EMPTY, actions);
    var id := Ascending(Selected(s.rows, f))[i];
    assert id in Selected(s.rows, f);
    assert ListEscrows(s.rows, f).value[i] == RowToSummary(id, s.rows[id]);
    GetServesTheChain(w, actions, id);
  }

  lemma SameListing(a: set<nat>, b: set<nat>)
    ensures Ascending(a) == Ascending(b) <==> a == b
  {
    if Ascending(a) == Ascending(b) {
      assert forall id :: id in a <==> id in Ascending(a);
      assert forall id :: id in b <==> id in Ascending(b);
    }
  }

  lemma AllAreSelectableIff(c: Chain, t: Table, f: Filter)
    ensures Selectable(c, t, f) == Concerned(c, f) <==> forall id :: id in Concerned(c, f) ==> Knows(t, f, id)
  {
    if Selectable(c, t, f) == Concerned(c, f) {
      forall id | id in Concerned(c, f) ensures Knows(t, f, id) { assert id in Selectable(c, t, f); }
    }
  }

  /** A served listing is complete if and only if the table knows enough of every
      escrow the filter asks for: it has a row that, for a buyer or seller, is no
      stub and, for an edition, has one. */
  lemma ListingIsCompleteIff(w: World, actions: seq<Action>, f: Filter)
    requires WorldOk(w) && ListEscrows(Run(w, EMPTY, actions).rows, f).Some?
    ensures var t := Run(w, EMPTY, actions).rows;
      Ids(ListEscrows(t, f).value) == Ascending(Concerned(Now(w), f))
      <==> forall id :: id in Concerned(Now(w), f) ==> Knows(t, f, id)
  {
    var t := Run(w, EMPTY, actions).rows;
    ListingServesTheResolvedChain(w, actions, f);
    var c := Now(w);
    SameListing(Selectable(c, t, f), Concerned(c, f));
    AllAreSelectableIff(c, t, f);
  }

  /** Where every escrow has a row, that is: no stub hides an escrow of that buyer
      or seller, no row without an edition one of that edition. */
  lemma ListingOverAllRowsIsCompleteIff(w: World, actions: seq<Action>, f: Filter)
    requires WorldOk(w) && ListEscrows(Run(w, EMPTY, actions).rows, f).Some?
    requires Run(w, EMPTY, actions).rows.Keys == Now(w).escrows.Keys
    ensures var t := Run(w, EMPTY, actions).rows;
      Ids(ListEscrows(t, f).value) == Ascending(Concerned(Now(w), f))
      <==> !exists id :: id in t && id in Concerned(Now(w), f)
             && (if f.ByEdition? then t[id].edition.None? else t[id].source == Stub)
  {
    var t := Run(w, EMPTY, actions).rows;
    ListingIsCompleteIff(w, actions, f);
    forall id | id in Concerned(Now(w), f)
      ensures id in t && (Knows(t, f, id) <==> !(if f.ByEdition? then t[id].edition.None? else t[id].source == Stub))
    {
      assert id in Now(w).escrows.Keys;
    }
  }

  /** With every live event handled, the listener has done its part: all escrows
      have their create columns if and only if those created before the cursor do,
      which only a backfill brings. */
  lemma EveryEscrowIsKnownIff(w: World, actions: seq<Action>)
    requires WorldOk(w) && AllApplied(w, Run(w, EMPTY, actions))
    ensures var t := Run(w, EMPTY, actions).rows;
      (forall id :: id in Now(w).escrows ==> HasCreateColumns(t, id))
      <==> (forall id :: id in ChainAt(w, w.cursor).escrows ==> HasCreateColumns(t, id))
  {
    var s := Run(w, EMPTY, actions);
    RunKeepsInv(w, EMPTY, actions);
    PrefixGrows(w.history, w.cursor);
    forall id | id in Now(w).escrows && id !in ChainAt(w, w.cursor).escrows ensures HasCreateColumns(s.rows, id) {
      var e := LiveCreation(w, id);
      assert e in s.applied && EventSeen(s.rows[e.id], e);
    }
  }

  lemma LiveCreation(w: World, id: nat) returns (e: Event)
    requires WorldOk(w) && id in Now(w).escrows && id !in ChainAt(w, w.cursor).escrows
    ensures Live(w, e) && e.id == id && (e.Created? || e.ReEscrowed?)
  {
    EscrowWasCreated(w.history, id);
    e :| e in w.history && e.id == id && (e.Created? || e.ReEscrowed?);
    var k :| 0 <= k < |w.history| && w.history[k] == e;
    if k < w.cursor {
      ScriptReflects(w, w.cursor, k);
    } else {
      assert w.history[w.cursor..][k - w.cursor] == e;
    }
  }

  /** A stub of an escrow created before the cursor is never served by its id,
      whatever is delivered or backfilled later. */
  lemma StubIsNeverServed(w: World, actions: seq<Action>, more: seq<Action>, id: nat)
    requires WorldOk(w) && IsStub(Run(w, EMPTY, actions), id) && id in ChainAt(w, w.cursor).escrows
    ensures GetEscrow(Run(w, Run(w, EMPTY, actions), more).rows, id).None?
  {
    RunKeepsInv(w, EMPTY, actions);
    StubIsForGood(w, Run(w, EMPTY, actions), more, id);
  }

  lemma {:induction false} CertificateWasMinted(h: seq<Event>, certificate: nat)
    requires Legal(h) && certificate in Fold(h).editions
    ensures exists e :: e in h && e.Created? && e.certificate == certificate
    decreases |h|
  {
    var p := h[..|h| - 1];
    if certificate in Fold(p).editions {
      CertificateWasMinted(p, certificate);
      var e :| e in p && e.Created? && e.certificate == certificate;
      assert e in h;
    } else {
      assert h[|h| - 1] in h;
    }
  }

  /** With the whole history handled, looking up any certificate in the table
      answers with the chain's edition. */
  lemma EveryCertificateResolves(w: World, actions: seq<Action>, certificate: nat)
    requires WorldOk(w) && w.cursor == 0 && AllApplied(w, Run(w, EMPTY, actions)) && certificate in Now(w).editions
    ensures EditionForCertificate(Run(w, EMPTY, actions).rows, certificate) == Some(Now(w).editions[certificate])
  {
    var s := Run(w, EMPTY, actions);
    RunKeepsInv(w, EMPTY, actions);
    assert w.history[0..] == w.history;
    CertificateWasMinted(w.history, certificate);
    var e :| e in w.history && e.Created? && e.certificate == certificate;
    assert e in s.applied && EventSeen(s.rows[e.id], e) && RowOk(w, s, e.id);
    LiveReflected(w, e);
    assert Resolves(s.rows, e.id, certificate);
    ResolvedEditionIsRight(w, s, certificate);
  }

  /** At every moment, however the table was fed: it resolves a certificate to the
      chain's edition if and only if it has a complete row of one of its escrows. */
  lemma CertificateResolvesIff(w: World, actions: seq<Action>, certificate: nat)
    requires WorldOk(w) && certificate in Now(w).editions
    ensures var t := Run(w, EMPTY, actions).rows;
      EditionForCertificate(t, certificate) == Some(Now(w).editions[certificate])
      <==> exists id :: id in t && id in Now(w).escrows && !t[id].incomplete
             && Now(w).escrows[id].certificate == certificate
  {
    var s := Run(w, EMPTY, actions);
    RunKeepsInv(w, EMPTY, actions);
    ResolvedEditionIsRight(w, s, certificate);
    forall id | id in s.rows
      ensures Resolves(s.rows, id, certificate)
        <==> id in Now(w).escrows && !s.rows[id].incomplete && Now(w).escrows[id].certificate == certificate
    {
      assert RowOk(w, s, id);
    }
  }

  lemma EditionlessRow(w: World, actions: seq<Action>, id: nat)
    requires WorldOk(w) && w.cursor == 0 && AllApplied(w, Run(w, EMPTY, actions)) && id in Run(w, EMPTY, actions).rows
    ensures var rows := Run(w, EMPTY, actions).rows;
      id in Now(w).escrows && EditionForCertificate(rows, rows[id].certificate) == Some(Now(w).escrows[id].edition)
  {
    EveryEscrowHasARow(w, actions, id);
    FoldConsistent(w.history);
    EveryCertificateResolves(w, actions, Now(w).escrows[id].certificate);
  }

  /** If the listener saw the whole history, the table itself tells: a listing by
      edition omits nothing if and only if no row without an edition has a
      certificate that the table resolves to the edition asked for. */
  lemma EditionListingIsCompleteIff(w: World, actions: seq<Action>, edition: nat)
    requires WorldOk(w) && w.cursor == 0 && AllApplied(w, Run(w, EMPTY, actions))
    requires ListEscrows(Run(w, EMPTY, actions).rows, ByEdition(edition)).Some?
    ensures var t := Run(w, EMPTY, actions).rows;
      Ids(ListEscrows(t, ByEdition(edition)).value) == Ascending(Concerned(Now(w), ByEdition(edition)))
      <==> (forall id :: id in t && t[id].edition.None? ==>
          EditionForCertificate(t, t[id].certificate) != Some(edition))
  {
    var t := Run(w, EMPTY, actions).rows;
    var f := ByEdition(edition);
    ListingServesTheResolvedChain(w, actions, f);
    var all, some := Concerned(Now(w), f), Selectable(Now(w), t, f);
    forall id ensures id in t <==> id in Now(w).escrows { EveryEscrowHasARow(w, actions, id); }
    forall id | id in t
      ensures EditionForCertificate(t, t[id].certificate) == Some(Now(w).escrows[id].edition)
    {
      EditionlessRow(w, actions, id);
    }
    SameListing(some, all);
    if some == all {
      assert forall id :: id in t && t[id].edition.None? ==> id !in some;
    }
    if forall id :: id in t && t[id].edition.None? ==> EditionForCertificate(t, t[id].certificate) != Some(edition) {
      assert some == all;
    }
  }

  /** A re-escrow handled before the first escrow of its certificate: the listing
      by edition is served, and leaves that escrow out. */
  lemma EditionListingCanOmit()
    ensures var w := World([MINT, AGAIN], 0);
      var actions := [Lookup(0, AGAIN, true), Write(0), Deliver(MINT, "")];
      && WorldOk(w) && AllApplied(w, Run(w, EMPTY, actions))
      && 2 in Now(w).escrows && Now(w).escrows[2].edition == 7
      && ListEscrows(Run(w, EMPTY, actions).rows, ByEdition(7)).Some?
      && Ids(ListEscrows(Run(w, EMPTY, actions).rows, ByEdition(7)).value) == [1]
  {
    HistoryIsLegal();
    var w := World([MINT, AGAIN], 0);
    assert w.history[0..] == w.history && MINT in w.history && AGAIN in w.history;
    var a := [Lookup(0, AGAIN, true), Write(0), Deliver(MINT, "")];
    var s1 := Apply(w, EMPTY, a[0]);
    assert s1.pending[0] == Pending(AGAIN, None);
    var s2 := Apply(w, s1, a[1]);
    var s3 := Apply(w, s2, a[2]);
    assert a[1..] == [a[1], a[2]] && [a[1], a[2]][1..] == [a[2]] && [a[2]][1..] == [];
    assert Run(w, EMPTY, a) == Run(w, s1, [a[1], a[2]]) == Run(w, s2, [a[2]]) == Run(w, s3, []);
    assert s3.rows.Keys == {1, 2} && s3.rows[1].edition == Some(7) && s3.rows[2].edition == None;
    assert Selected(s3.rows, ByEdition(7)) == {1};
    assert !s3.rows[1].incomplete;
    assert Least({1}) == 1 && {1} - {1} == {};
    assert Ascending({1}) == [1];
  }

  const BORN := Created(1, "b", "s", 7, "c", "u", 5, 10)
  const FREED := Released(1, 0, 11)

  /** A live event overtakes the backfill: it leaves a stub, the backfill skips the
      id, and with everything handled and a row for every escrow both the buyer's
      and the edition's listing are served without it. */
  lemma StubHidesAnEscrow()
    ensures var w := World([BORN, FREED], 1);
      var actions := [Deliver(FREED, ""), Backfill(1, 2, None)];
      && WorldOk(w) && 1 in Now(w).escrows && Now(w).escrows[1].buyer == "b" && Now(w).escrows[1].edition == 7
      && var s := Run(w, EMPTY, actions);
         && AllApplied(w, s) && s.rows.Keys == Now(w).escrows.Keys
         && ListEscrows(s.rows, ByBuyer("b")) == Some([]) && ListEscrows(s.rows, ByEdition(7)) == Some([])
  {
    var h := [BORN, FREED];
    assert h[..1] == [BORN] && [BORN][..0] == [] && h[..2] == h && h[1..] == [FREED];
    assert Legal([]) && Fold([]) == Chain(map[], map[]);
    assert Legal([BORN]) && 1 in Fold([BORN]).escrows;
    assert Legal(h) && Fold(h).escrows.Keys == {1};
    var w := World(h, 1);
    assert Live(w, FREED) by { assert h[1..][0] == FREED; }
    var a := [Deliver(FREED, ""), Backfill(1, 2, None)];
    var s1 := Apply(w, EMPTY, a[0]);
    assert s1.rows == map[1 := STUB.(status := RELEASED, reason := Some(0), height := 11)];
    assert a[1..] == [Backfill(1, 2, None)] && a[1..][1..] == [];
    assert Run(w, EMPTY, a) == Run(w, s1, a[1..]) == Apply(w, s1, a[1]) == s1;
    assert Selected(s1.rows, ByBuyer("b")) == {} && Selected(s1.rows, ByEdition(7)) == {};
  }
}
