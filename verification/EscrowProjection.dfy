/** The escrow read model: column-scoped upserts, the event handlers that issue
    them, and the backfill and resync paths. */
module EscrowProjection {
  import opened Common
  import opened EscrowChain

  datatype Source = Stub | FromCreated | FromReEscrowed | FromBackfill

  datatype Row = Row(
    buyer: string, seller: string, edition: Option<nat>, chip: string, unlockAt: string, certificate: nat,
    source: Source, status: nat, reason: Option<nat>, claimed: bool, claimedAt: Option<string>,
    height: nat, incomplete: bool)

  type Table = map<nat, Row>

  datatype CreateFields = CreateFields(
    id: nat, buyer: string, seller: string, edition: Option<nat>, chip: string, unlockAt: string,
    certificate: nat, source: Source, height: nat)

  /** A row inserted by an event that overtook its escrow's creation. */
  const STUB: Row := Row("", "", None, "", "", 0, Stub, PENDING, None, false, None, 0, true)

  // ---- Upserts: each writes its own column group ----

  function RowOr(t: Table, id: nat): Row {
    if id in t then t[id] else STUB
  }

  function UpsertCreated(t: Table, f: CreateFields): Table {
    t[f.id := RowOr(t, f.id).(
      buyer := f.buyer, seller := f.seller, edition := f.edition, chip := f.chip, unlockAt := f.unlockAt,
      certificate := f.certificate, source := f.source, height := f.height, incomplete := f.edition.None?)]
  }

  function UpsertReleased(t: Table, id: nat, status: nat, reason: nat, height: nat): Table {
    t[id := RowOr(t, id).(status := status, reason := Some(reason), height := height)]
  }

  function UpsertVoided(t: Table, id: nat, status: nat, height: nat): Table {
    t[id := RowOr(t, id).(status := status, height := height)]
  }

  function UpsertClaimed(t: Table, id: nat, claimed: bool, claimedAt: Option<string>): Table {
    t[id := RowOr(t, id).(claimed := claimed, claimedAt := claimedAt)]
  }

  function UpsertBackfillRow(t: Table, id: nat, row: Row): Table {
    if id in t then t else t[id := row]
  }

  /** The on-chain summary as a complete row. */
  function BackfillRow(x: Escrow, claimedAt: Option<string>): Row {
    Row(x.buyer, x.seller, Some(x.edition), x.chip, x.unlockAt, x.certificate, FromBackfill,
        x.status, x.reason, x.claimed, claimedAt, 0, false)
  }

  // ---- Edition lookup: lowest escrow id with this certificate and an edition ----

  predicate Resolves(t: Table, id: nat, certificate: nat) {
    id in t && t[id].certificate == certificate && t[id].edition.Some?
  }

  lemma LeastFrom(s: set<nat>, x: nat)
    requires x in s
    ensures exists y :: y in s && forall z :: z in s ==> y <= z
    decreases x
  {
    if y :| y in s && y < x { LeastFrom(s, y); }
  }

  function Least(s: set<nat>): (x: nat)
    requires s != {}
    ensures x in s && forall y :: y in s ==> x <= y
  {
    LeastFrom(s, var x :| x in s; x);
    var x :| x in s && forall y :: y in s ==> x <= y;
    x
  }

  function EditionForCertificate(t: Table, certificate: nat): (edition: Option<nat>)
    ensures edition.None? <==> forall id :: !Resolves(t, id, certificate)
    ensures edition.Some? ==> exists id :: Resolves(t, id, certificate) && t[id].edition == edition
                                           && forall j :: Resolves(t, j, certificate) ==> id <= j
  {
    var found := set id | id in t && Resolves(t, id, certificate);
    assert forall id :: Resolves(t, id, certificate) ==> id in found;
    if found == {} then None else t[Least(found)].edition
  }

  // ---- Handlers ----

  /** The create columns an event carries; a re-escrow carries no edition. */
  function FieldsOf(e: Event, edition: Option<nat>): CreateFields
    requires e.Created? || e.ReEscrowed?
  {
    match e
    case Created(id, buyer, seller, ed, chip, unlockAt, certificate, height) =>
      CreateFields(id, buyer, seller, Some(ed), chip, unlockAt, certificate, FromCreated, height)
    case ReEscrowed(id, certificate, chip, buyer, seller, unlockAt, height) =>
      CreateFields(id, buyer, seller, edition, chip, unlockAt, certificate, FromReEscrowed, height)
  }

  /** The single write an event's handler makes; `edition` is its lookup's
      answer and only matters for a re-escrow. */
  function Handled(t: Table, e: Event, edition: Option<nat>, clock: string): Table {
    match e
    case Created(_, _, _, _, _, _, _, _) => UpsertCreated(t, FieldsOf(e, None))
    case ReEscrowed(_, _, _, _, _, _, _) => UpsertCreated(t, FieldsOf(e, edition))
    case Released(id, reason, height) => UpsertReleased(t, id, RELEASED, reason, height)
    case Voided(id, height) => UpsertVoided(t, id, VOIDED, height)
    case Claimed(id, _) => UpsertClaimed(t, id, true, Some(clock))
  }

  /** Whatever the event, only its own escrow's row is written, and only the
      columns its column group owns. */
  lemma HandlersKeepToTheirColumns(t: Table, e: Event, edition: Option<nat>, clock: string)
    ensures var u := Handled(t, e, edition, clock);
      && u.Keys == t.Keys + {e.id}
      && (forall id :: id in t && id != e.id ==> u[id] == t[id])
      && var a, b := RowOr(t, e.id), u[e.id];
         && (e.Created? || e.ReEscrowed? ==>
             b.status == a.status && b.reason == a.reason && b.claimed == a.claimed && b.claimedAt == a.claimedAt)
         && (e.Released? || e.Voided? ==> b.(status := a.status, reason := a.reason, height := a.height) == a)
         && (e.Voided? ==> b.reason == a.reason)
         && (e.Claimed? ==> b.(claimed := a.claimed, claimedAt := a.claimedAt) == a)
  {
  }

  /** And it writes all of them, from the event. */
  lemma HandlersWriteTheEvent(t: Table, e: Event, edition: Option<nat>, clock: string)
    ensures e.id in Handled(t, e, edition, clock)
    ensures var b := Handled(t, e, edition, clock)[e.id];
      && (!e.Claimed? ==> b.height == e.height)
      && (e.Created? || e.ReEscrowed? ==>
            && b.buyer == e.buyer && b.seller == e.seller && b.chip == e.chip && b.unlockAt == e.unlockAt
            && b.certificate == e.certificate && (b.incomplete <==> b.edition.None?)
            && b.edition == (if e.Created? then Some(e.edition) else edition)
            && b.source == if e.Created? then FromCreated else FromReEscrowed)
      && (e.Released? ==> b.status == RELEASED && b.reason == Some(e.reason))
      && (e.Voided? ==> b.status == VOIDED)
      && (e.Claimed? ==> b.claimed && b.claimedAt == Some(clock))
  {
  }

  /** A handler's write on the row alone. */
  function HandledRow(row: Row, e: Event, edition: Option<nat>, clock: string): Row {
    Handled(map[e.id := row], e, edition, clock)[e.id]
  }

  lemma HandledIs(t: Table, e: Event, edition: Option<nat>, clock: string)
    ensures Handled(t, e, edition, clock) == t[e.id := HandledRow(RowOr(t, e.id), e, edition, clock)]
  {
  }

  lemma RowsCommute(row: Row, d: Event, e: Event, first: Option<nat>, second: Option<nat>, c: string, k: string)
    requires !SameKind(d, e)
    ensures HandledRow(HandledRow(row, d, first, c), e, second, k).(height := 0)
         == HandledRow(HandledRow(row, e, second, k), d, first, c).(height := 0)
  {
  }

  lemma WrittenTwice(t: Table, d: Event, e: Event, first: Option<nat>, second: Option<nat>, c: string, k: string)
    requires d.id == e.id
    ensures Handled(Handled(t, d, first, c), e, second, k)
         == t[e.id := HandledRow(HandledRow(RowOr(t, e.id), d, first, c), e, second, k)]
  {
    HandledIs(t, d, first, c);
    var a := t[d.id := HandledRow(RowOr(t, d.id), d, first, c)];
    HandledIs(a, e, second, k);
  }

  lemma WrittenApart(t: Table, d: Event, e: Event, first: Option<nat>, second: Option<nat>, c: string, k: string)
    requires d.id != e.id
    ensures Handled(Handled(t, d, first, c), e, second, k)
         == t[d.id := HandledRow(RowOr(t, d.id), d, first, c)][e.id := HandledRow(RowOr(t, e.id), e, second, k)]
  {
    HandledIs(t, d, first, c);
    var a := t[d.id := HandledRow(RowOr(t, d.id), d, first, c)];
    HandledIs(a, e, second, k);
  }

  /** So events of different escrows may be handled in either order. */
  lemma OtherEscrowsCommute(t: Table, d: Event, e: Event, first: Option<nat>, second: Option<nat>, c: string, k: string)
    requires d.id != e.id
    ensures Handled(Handled(t, d, first, c), e, second, k) == Handled(Handled(t, e, second, k), d, first, c)
  {
    WrittenApart(t, d, e, first, second, c, k);
    WrittenApart(t, e, d, second, first, k, c);
    TwoRows(t, d.id, HandledRow(RowOr(t, d.id), d, first, c), e.id, HandledRow(RowOr(t, e.id), e, second, k));
  }

  lemma TwoRows(t: Table, i: nat, x: Row, j: nat, y: Row)
    requires i != j
    ensures t[i := x][j := y] == t[j := y][i := x]
  {
  }

  /** And so may those of one escrow that write different column groups: but for the
      height the rows are the same. */
  lemma OtherGroupsCommute(t: Table, d: Event, e: Event, first: Option<nat>, second: Option<nat>, c: string, k: string)
    requires d.id == e.id && !SameKind(d, e)
    ensures exists x: Row, height ::
      && Handled(Handled(t, d, first, c), e, second, k) == t[e.id := x]
      && Handled(Handled(t, e, second, k), d, first, c) == t[e.id := x.(height := height)]
  {
    WrittenTwice(t, d, e, first, second, c, k);
    WrittenTwice(t, e, d, second, first, k, c);
    var row := RowOr(t, e.id);
    var x := HandledRow(HandledRow(row, d, first, c), e, second, k);
    var y := HandledRow(HandledRow(row, e, second, k), d, first, c);
    RowsCommute(row, d, e, first, second, c, k);
    SameButHeight(x, y);
  }

  lemma SameButHeight(x: Row, y: Row)
    requires x.(height := 0) == y.(height := 0)
    ensures y == x.(height := y.height)
  {
  }

  /** The terminal columns ResyncFromChain reconciles. */
  function Resynced(row: Row, x: Escrow, claimedAt: Option<string>): Row {
    row.(status := x.status, reason := x.reason, claimed := x.claimed, claimedAt := claimedAt)
  }

  const CHUNK: nat := 500

  class ProjectionStore {
    var rows: Table

    constructor ()
      ensures rows == map[]
    {
      rows := map[];
    }

    method ApplyCreated(f: CreateFields)
      modifies this
      ensures rows == UpsertCreated(old(rows), f)
    {
      if f.id in rows {
        var row := rows[f.id];
        rows := rows[f.id := row.(
          buyer := f.buyer, seller := f.seller, edition := f.edition, chip := f.chip, unlockAt := f.unlockAt,
          certificate := f.certificate, source := f.source, height := f.height, incomplete := f.edition.None?)];
      } else {
        rows := rows[f.id := Row(f.buyer, f.seller, f.edition, f.chip, f.unlockAt, f.certificate, f.source,
                                 PENDING, None, false, None, f.height, f.edition.None?)];
      }
    }

    method ApplyReleased(id: nat, status: nat, reason: nat, height: nat)
      modifies this
      ensures rows == UpsertReleased(old(rows), id, status, reason, height)
    {
      var row := if id in rows then rows[id] else STUB;
      rows := rows[id := row.(status := status, reason := Some(reason), height := height)];
    }

    method ApplyVoided(id: nat, status: nat, height: nat)
      modifies this
      ensures rows == UpsertVoided(old(rows), id, status, height)
    {
      var row := if id in rows then rows[id] else STUB;
      rows := rows[id := row.(status := status, height := height)];
    }

    method ApplyClaimed(id: nat, claimed: bool, claimedAt: Option<string>)
      modifies this
      ensures rows == UpsertClaimed(old(rows), id, claimed, claimedAt)
    {
      var row := if id in rows then rows[id] else STUB;
      rows := rows[id := row.(claimed := claimed, claimedAt := claimedAt)];
    }

    method ApplyBackfillRow(id: nat, row: Row)
      modifies this
      ensures rows == UpsertBackfillRow(old(rows), id, row)
    {
      if id !in rows { rows := rows[id := row]; }
    }

    /** Handle, with nothing happening between its lookup and its write. A
        failed lookup is logged and its answer taken as unknown. */
    method Handle(e: Event, lookupOk: bool, clock: string)
      modifies this
      ensures rows == Handled(old(rows), e,
                              if e.ReEscrowed? && lookupOk then EditionForCertificate(old(rows), e.certificate)
                                else None, clock)
    {
      match e
      case Created(_, _, _, _, _, _, _, _) => ApplyCreated(FieldsOf(e, None));
      case ReEscrowed(_, certificate, _, _, _, _, _) =>
        var edition := if lookupOk then EditionForCertificate(rows, certificate) else None;
        ApplyCreated(FieldsOf(e, edition));
      case Released(id, reason, height) => ApplyReleased(id, RELEASED, reason, height);
      case Voided(id, height) => ApplyVoided(id, VOIDED, height);
      case Claimed(id, _) => ApplyClaimed(id, true, Some(clock));
    }

    method ResyncFromChain(id: nat, x: Escrow, claimedAt: Option<string>) returns (changed: bool)
      modifies this
      ensures rows == if id in old(rows) then old(rows)[id := Resynced(old(rows)[id], x, claimedAt)] else old(rows)
      ensures changed <==> rows != old(rows)
    {
      if id !in rows { return false; }
      var row := rows[id];
      if row.status == x.status && row.reason == x.reason && row.claimed == x.claimed && row.claimedAt == claimedAt {
        assert Resynced(row, x, claimedAt) == row;
        return false;
      }
      ghost var before := rows;
      rows := rows[id := row.(status := x.status, reason := x.reason, claimed := x.claimed, claimedAt := claimedAt)];
      assert rows[id] != before[id];
      changed := true;
    }

    /** BackfillEscrowProjection over the summaries of ids 1..total, read in
        chunks; `failAt` is the first chunk whose script fails and `failRow` the
        first row whose upsert does, if any. Live rows are never overwritten and
        a table that has rows is left alone. */
    method BackfillEscrowProjection(total: nat, summaries: map<nat, Row>, failAt: Option<nat>, failRow: Option<nat>)
      returns (written: nat, ok: bool)
      requires forall id :: 1 <= id <= total ==> id in summaries
      modifies this
      ensures old(rows) != map[] ==> rows == old(rows) && written == 0 && ok
      ensures old(rows) == map[] ==>
        && (ok <==> written == total) && written <= total
        && (!ok ==> failRow == Some(written + 1) || (written % CHUNK == 0 && failAt == Some(written / CHUNK)))
        && (ok ==> (failRow.None? || !(1 <= failRow.value <= total)) && (failAt.None? || failAt.value * CHUNK >= total))
        && (forall id :: id in rows <==> 1 <= id <= written)
        && (forall id :: id in rows ==> rows[id] == summaries[id])
    {
      written, ok := 0, true;
      if rows != map[] { return; }
      var start, chunk := 1, 0;
      while start <= total
        invariant start == chunk * CHUNK + 1 && ok
        invariant written == if start - 1 <= total then start - 1 else total
        invariant failRow.None? || !(1 <= failRow.value <= written)
        invariant failAt.None? || failAt.value >= chunk
        invariant forall id :: id in rows <==> 1 <= id <= written
        invariant forall id :: id in rows ==> rows[id] == summaries[id]
        decreases total + CHUNK - start
      {
        if failAt == Some(chunk) { return written, false; }
        var end := start + CHUNK - 1;
        if end > total { end := total; }
        var id := start;
        while id <= end
          invariant start <= id <= end + 1 && end <= total && written == id - 1
          invariant failRow.None? || !(1 <= failRow.value <= written)
          invariant forall k :: k in rows <==> 1 <= k <= written
          invariant forall k :: k in rows ==> rows[k] == summaries[k]
        {
          if failRow == Some(id) { return written, false; }
          ApplyBackfillRow(id, summaries[id]);
          written := written + 1;
          id := id + 1;
        }
        start := start + CHUNK;
        chunk := chunk + 1;
      }
    }

    /** Two boots, nothing failing at the second: an interrupted backfill is made good
        exactly if it had written nothing, and never where the listener came first. */
    method BackfillOnTwoBoots(
      total: nat, summaries: map<nat, Row>, failAt: Option<nat>, failRow: Option<nat>, laterTotal: nat,
      later: map<nat, Row>)
      returns (written: nat, ok: bool, again: nat)
      requires forall id :: 1 <= id <= total ==> id in summaries
      requires forall id :: 1 <= id <= laterTotal ==> id in later
      modifies this
      ensures old(rows) != map[] ==> rows == old(rows)
      ensures old(rows) == map[] && !ok ==>
        ((forall id :: id in rows <==> 1 <= id <= laterTotal) <==> written == 0 || written == laterTotal)
      ensures old(rows) == map[] && !ok && written > 0 ==>
        again == 0 && forall id :: id in rows <==> 1 <= id <= written
    {
      written, ok := BackfillEscrowProjection(total, summaries, failAt, failRow);
      ghost var first := rows;
      assert old(rows) == map[] && written > 0 ==> written in first && written + 1 !in first;
      var complete;
      again, complete := BackfillEscrowProjection(laterTotal, later, None, None);
      assert first != map[] ==> rows == first;
      if old(rows) == map[] && 0 < written < laterTotal { assert written + 1 !in rows; }
      if old(rows) == map[] && written > laterTotal { assert written in rows; }
    }
  }
}
