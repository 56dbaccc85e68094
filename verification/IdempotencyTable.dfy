/** The table shared by the generic idempotency store and the durable purchase
    intents: reservation and compare-and-set on one side, reserve / set /
    release / prune on the other. */
module IdempotencyTable {
  import opened Common
  import opened PurchaseTypes

  predicate IsPurchase(row: Row) {
    row.intent.Some?
  }

  /** The row `token` owns at `key`, if any. */
  function OwnRow(rows: Rows, key: Key, token: Token): Option<Row> {
    if key in rows && IsPurchase(rows[key]) && rows[key].intent.value.token == token then Some(rows[key]) else None
  }

  // ---- Purchase intents ----

  function NewIntentRow(input: Input, token: Token, leaseUntil: Time): Row {
    Row(None, 0, "", None, false,
        Some(Intent(input.userId, input.intent, RequestHash(input), 1, Reserved, token, leaseUntil,
                    false, None, None, None, input.customer, None, None)))
  }

  /** INSERT ... ON CONFLICT DO NOTHING. */
  function InsertIntent(rows: Rows, input: Input, token: Token, leaseUntil: Time): Rows {
    if InputKey(input) in rows then rows else rows[InputKey(input) := NewIntentRow(input, token, leaseUntil)]
  }

  /** SELECT on key, record kind and the identity columns. */
  function ReadIntent(rows: Rows, owner: string, intent: string): Option<Row> {
    var key := IntentKey(owner, intent);
    if && key in rows && IsPurchase(rows[key])
       && rows[key].intent.value.owner == owner && rows[key].intent.value.intent == intent
    then Some(rows[key]) else None
  }

  /** The column changes the five durable transitions ask for. */
  datatype Change =
    | MarkExecuting
    | Observe(paymentIntent: string, status: string)
    | FailUncertain(code: Code)
    | FailClean(code: Code, statusCode: int, body: Body, expires: Time)
    | Record(purchaseId: PurchaseId, body: Body, expires: Time)

  function FromStates(change: Change): set<ExecutionState> {
    match change
    case MarkExecuting => {Reserved}
    case Observe(_, _) => {Executing}
    case FailUncertain(_) => {Reserved, Executing}
    case FailClean(_, _, _, _) => {Reserved}
    case Record(_, _, _) => {Executing}
  }

  function Changed(row: Row, change: Change): (r: Row)
    requires IsPurchase(row)
    ensures IsPurchase(r)
  {
    var i := row.intent.value;
    match change
    case MarkExecuting =>
      row.(intent := Some(i.(state := Executing, effect := true)))
    case Observe(pi, status) =>
      row.(intent := Some(i.(paymentIntent := Some(pi), paymentStatus := Some(status))))
    case FailUncertain(code) =>
      row.(intent := Some(i.(state := Unknown, errorCode := Some(code))))
    case FailClean(code, status, body, expires) =>
      row.(completed := true, body := Some(body), statusCode := status, contentType := "application/json",
           intent := Some(i.(state := NotCharged, errorCode := Some(code), responseExpiresAt := Some(expires))))
    case Record(id, body, expires) =>
      row.(completed := true, body := Some(body), statusCode := 201, contentType := "application/json",
           intent := Some(i.(state := Recorded, purchaseId := Some(id), responseExpiresAt := Some(expires))))
  }

  predicate Owns(rows: Rows, key: Key, token: Token, from: set<ExecutionState>) {
    key in rows && IsPurchase(rows[key]) && rows[key].intent.value.token == token
      && rows[key].intent.value.state in from
  }

  /** The unique index on the provider's payment intent id. */
  predicate DuplicatePayment(rows: Rows, key: Key, change: Change) {
    change.Observe? &&
    exists k | k in rows :: k != key && IsPurchase(rows[k])
      && rows[k].intent.value.paymentIntent == Some(change.paymentIntent)
  }

  datatype CasResult = Updated | NotOwner | DuplicateKey | DatabaseError

  /** The conditional UPDATE: the rows after it, and what its caller is told. */
  function Cas(rows: Rows, key: Key, token: Token, change: Change, write: Write): (Rows, CasResult)
  {
    if write == Rejected then (rows, DatabaseError)
    else if !Owns(rows, key, token, FromStates(change)) then
      (rows, if write == Unacked then DatabaseError else NotOwner)
    else if DuplicatePayment(rows, key, change) then (rows, DuplicateKey)
    else (rows[key := Changed(rows[key], change)], if write == Unacked then DatabaseError else Updated)
  }

  /** An update took effect exactly when the caller is told so or the
      acknowledgement was lost; a refusal always leaves the table alone. A row
      of another executor, another key or a finished state never changes. */
  lemma CasOnlyMovesOwnLiveRow(rows: Rows, key: Key, token: Token, change: Change, write: Write)
    ensures var (after, told) := Cas(rows, key, token, change, write);
            && after.Keys == rows.Keys
            && (told == Updated || told == DatabaseError || after == rows)
            && (told == Updated ==> OwnRow(rows, key, token).Some? && after[key] == Changed(rows[key], change))
            && (forall k :: k in rows && after[k] != rows[k] ==>
                  k == key && IsPurchase(rows[k]) && rows[k].intent.value.token == token
                  && !Terminal(rows[k].intent.value.state) && IsPurchase(after[k])
                  && after[k].intent.value.token == token
                  && after[k].intent.value.requestHash == rows[k].intent.value.requestHash)
  {
  }

  /** UPDATE body = NULL on purchase rows whose retention has passed. */
  function PurgeBodies(rows: Rows, now: Time): Rows {
    map k | k in rows ::
      if Purgeable(rows[k], now) then rows[k].(body := None) else rows[k]
  }

  predicate Purgeable(row: Row, now: Time) {
    IsPurchase(row) && row.intent.value.responseExpiresAt.Some? && row.intent.value.responseExpiresAt.value <= now
      && row.body.Some?
  }

  /** UPDATE body = NULL on one purchase row. */
  function DropBody(rows: Rows, key: Key): Rows {
    if key in rows && IsPurchase(rows[key]) then rows[key := rows[key].(body := None)] else rows
  }

  // ---- Generic idempotency store ----

  function GenericRow(expiry: Time, status: int, contentType: string, text: string, completed: bool): Row {
    Row(Some(expiry), status, contentType, Some(RawBody(text)), completed, None)
  }

  /** One statement that deletes the key if it is an expired cache row, and inserts it
      unless it exists. Whether the insert sees the deletion is the database's
      affair. */
  function TryReserve(rows: Rows, key: Key, now: Time, expiry: Time, sees: bool): Rows {
    var kept := if key in rows && !IsPurchase(rows[key]) && Expired(rows[key], now) then rows - {key} else rows;
    if key in (if sees then kept else rows) then kept else kept[key := GenericRow(now + expiry, 0, "", "", false)]
  }

  predicate Expired(row: Row, now: Time) {
    row.expiry.Some? && row.expiry.value <= now
  }

  /** Insert unless present, then update unless it is a purchase row. */
  function SetResponse(rows: Rows, key: Key, now: Time, expiry: Time, status: int, contentType: string,
      text: string): Rows {
    if key in rows && IsPurchase(rows[key]) then rows
    else rows[key := GenericRow(now + expiry, status, contentType, text, true)]
  }

  function Release(rows: Rows, key: Key): Rows {
    if key in rows && !IsPurchase(rows[key]) then rows - {key} else rows
  }

  function PruneExpired(rows: Rows, now: Time): Rows {
    map k | k in rows && (IsPurchase(rows[k]) || rows[k].expiry.None? || rows[k].expiry.value >= now) :: rows[k]
  }

  /** Same purchase rows: what the generic store may never disturb. */
  ghost predicate SamePurchases(before: Rows, after: Rows) {
    && (forall k :: k in before && IsPurchase(before[k]) ==> k in after && after[k] == before[k])
    && (forall k :: k in after && IsPurchase(after[k]) ==> k in before && after[k] == before[k])
  }

  /** No generic operation, whatever key it is given, adds, changes or removes
      a purchase row. */
  lemma GenericStoreKeepsPurchases(rows: Rows, key: Key, now: Time, expiry: Time, sees: bool, status: int,
      contentType: string, text: string)
    ensures SamePurchases(rows, TryReserve(rows, key, now, expiry, sees))
    ensures SamePurchases(rows, SetResponse(rows, key, now, expiry, status, contentType, text))
    ensures SamePurchases(rows, Release(rows, key))
    ensures SamePurchases(rows, PruneExpired(rows, now))
  {
  }

  /** A generic key over its life: reserved it is nobody else's until the expiry, its
      response stays until an expiry counted anew, a release leaves no trace; pruning
      takes a row only after its expiry, reserving already at it. */
  lemma GenericKeyLifecycle(rows: Rows, key: Key, expiry: Time, t0: Time, t1: Time, t2: Time, sees: bool, status: int,
      contentType: string, text: string)
    requires key !in rows
    ensures var reserved := TryReserve(rows, key, t0, expiry, sees);
      && key in reserved && !reserved[key].completed && !IsPurchase(reserved[key]) && Release(reserved, key) == rows
      && (t1 < t0 + expiry ==> TryReserve(reserved, key, t1, expiry, sees) == reserved)
    ensures var reserved := TryReserve(rows, key, t0, expiry, sees);
      var done := SetResponse(reserved, key, t1, expiry, status, contentType, text);
      && key in done && done[key].completed && done[key].body == Some(RawBody(text))
      && done[key].statusCode == status && done[key].contentType == contentType
      && (t2 < t1 + expiry ==> TryReserve(done, key, t2, expiry, sees) == done)
      && (key in PruneExpired(done, t2) <==> t2 <= t1 + expiry)
  {
  }

  /** After its expiry the first attempt reserves the key if and only if the statement
      sees its own deletion; otherwise it only clears the key, and the second one
      reserves it. */
  lemma ExpiredKeyIsReservedIff(rows: Rows, key: Key, now: Time, expiry: Time, sees: bool)
    requires key in rows && !IsPurchase(rows[key]) && Expired(rows[key], now)
    ensures var once := TryReserve(rows, key, now, expiry, sees);
      && (key in once <==> sees)
      && var twice := TryReserve(once, key, now, expiry, sees);
         key in twice && !twice[key].completed && twice[key].expiry == Some(now + expiry)
         && twice - {key} == rows - {key}
  {
  }

  /** The table as the store objects hold it. */
  class Table {
    var rows: Rows

    constructor ()
      ensures rows == map[]
    {
      rows := map[];
    }

    /** ReservePurchaseIntent: insert, read back, and compare tokens. */
    method ReservePurchaseIntent(input: Input, token: Token, now: Time, lease: Time, insert: Write, readOk: bool)
      returns (existing: Option<Row>, won: bool)
      modifies this
      ensures rows == if insert == Rejected then old(rows) else InsertIntent(old(rows), input, token, now + lease)
      ensures existing.Some? ==> insert == Acked && readOk && existing == ReadIntent(rows, input.userId, input.intent)
      ensures insert == Acked && readOk ==> existing == ReadIntent(rows, input.userId, input.intent)
      ensures won <==> existing.Some? && OwnRow(rows, InputKey(input), token).Some?
                       && existing == OwnRow(rows, InputKey(input), token)
    {
      existing, won := None, false;
      if insert == Rejected { return; }
      var key := InputKey(input);
      if key !in rows {
        rows := rows[key := NewIntentRow(input, token, now + lease)];
      }
      if insert == Unacked || !readOk { return; }
      existing := ReadIntent(rows, input.userId, input.intent);
      won := existing.Some? && existing.value.intent.value.token == token;
    }

    /** CASPurchaseIntent. */
    method CasPurchaseIntent(key: Key, token: Token, change: Change, write: Write) returns (told: CasResult)
      modifies this
      ensures (rows, told) == Cas(old(rows), key, token, change, write)
    {
      if write == Rejected { return DatabaseError; }
      if !Owns(rows, key, token, FromStates(change)) {
        return if write == Unacked then DatabaseError else NotOwner;
      }
      if DuplicatePayment(rows, key, change) { return DuplicateKey; }
      rows := rows[key := Changed(rows[key], change)];
      told := if write == Unacked then DatabaseError else Updated;
    }

    method PurgePurchaseResponseBodies(now: Time)
      modifies this
      ensures rows.Keys == old(rows.Keys)
      ensures forall k :: k in rows ==>
        rows[k] == if Purgeable(old(rows)[k], now) then old(rows)[k].(body := None) else old(rows)[k]
      ensures rows == PurgeBodies(old(rows), now)
    {
      rows := PurgeBodies(rows, now);
    }

    method TryReserveKey(key: Key, now: Time, expiry: Time, sees: bool) returns (reserved: bool)
      modifies this
      ensures rows == TryReserve(old(rows), key, now, expiry, sees)
      ensures SamePurchases(old(rows), rows)
      ensures reserved
        <==> key !in old(rows) || (sees && !IsPurchase(old(rows)[key]) && Expired(old(rows)[key], now))
    {
      GenericStoreKeepsPurchases(rows, key, now, expiry, sees, 0, "", "");
      var snapshot := rows;
      if key in rows && !IsPurchase(rows[key]) && Expired(rows[key], now) { rows := rows - {key}; }
      if key in (if sees then rows else snapshot) { return false; }
      rows := rows[key := GenericRow(now + expiry, 0, "", "", false)];
      reserved := true;
    }

    method SetKeyResponse(key: Key, now: Time, expiry: Time, status: int, contentType: string, text: string)
      modifies this
      ensures rows == SetResponse(old(rows), key, now, expiry, status, contentType, text)
      ensures SamePurchases(old(rows), rows)
    {
      GenericStoreKeepsPurchases(rows, key, now, expiry, true, status, contentType, text);
      if key !in rows {
        rows := rows[key := GenericRow(now + expiry, status, contentType, text, true)];
      }
      if !IsPurchase(rows[key]) {
        rows := rows[key := GenericRow(now + expiry, status, contentType, text, true)];
      }
    }

    method ReleaseKey(key: Key)
      modifies this
      ensures rows == Release(old(rows), key)
      ensures SamePurchases(old(rows), rows)
    {
      GenericStoreKeepsPurchases(rows, key, 0, 0, true, 0, "", "");
      if key in rows && !IsPurchase(rows[key]) { rows := rows - {key}; }
    }

    method Prune(now: Time)
      modifies this
      ensures rows == PruneExpired(PurgeBodies(old(rows), now), now)
    {
      PurgePurchaseResponseBodies(now);
      rows := PruneExpired(rows, now);
    }
  }
}
