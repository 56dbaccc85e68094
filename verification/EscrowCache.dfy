/** The in-process cache of escrow summaries: least-recently-used eviction plus a
    time to live that released escrows do not have. */
module EscrowCache {
  import opened Common
  import opened SharedFlight

  const RELEASED: int := 1

  datatype Summary = Summary(status: int, body: string)

  datatype Entry = Entry(summary: Summary, terminal: bool, expires: int)

  /** The map and the recency list, front first. */
  datatype State = State(items: map<nat, Entry>, order: seq<nat>)

  // ---- The list ----

  predicate Distinct(s: seq<nat>) {
    forall i, j :: 0 <= i < j < |s| ==> s[i] != s[j]
  }

  function Remove(s: seq<nat>, id: nat): seq<nat> {
    if s == [] then [] else if s[0] == id then Remove(s[1..], id) else [s[0]] + Remove(s[1..], id)
  }

  function ToFront(s: seq<nat>, id: nat): seq<nat> {
    [id] + Remove(s, id)
  }

  function Take(s: seq<nat>, cap: int): seq<nat> {
    if cap <= 0 then [] else if |s| <= cap then s else s[..cap]
  }

  function Restrict(items: map<nat, Entry>, order: seq<nat>): map<nat, Entry> {
    map id | id in items && id in order :: items[id]
  }

  // ---- The operations on values ----

  predicate Dead(e: Entry, now: int) {
    !e.terminal && now > e.expires
  }

  function Got(s: State, id: nat, now: int): State {
    if id !in s.items then s
    else if Dead(s.items[id], now) then State(s.items - {id}, Remove(s.order, id))
    else s.(order := ToFront(s.order, id))
  }

  function Found(s: State, id: nat, now: int): Option<Summary> {
    if id !in s.items || Dead(s.items[id], now) then None else Some(s.items[id].summary)
  }

  function EntryFor(summary: Summary, now: int, ttl: int): Entry {
    Entry(summary, summary.status == RELEASED, now + ttl)
  }

  function Stored(s: State, id: nat, summary: Summary, now: int, cap: int, ttl: int): State {
    var items := s.items[id := EntryFor(summary, now, ttl)];
    if id in s.items then State(items, ToFront(s.order, id))
    else
      var order := Take([id] + s.order, cap);
      State(Restrict(items, order), order)
  }

  /** The list and the map hold the same distinct ids, at most cap of them. */
  ghost predicate Consistent(s: State, cap: int) {
    && Distinct(s.order)
    && (forall id :: id in s.items <==> id in s.order)
    && |s.order| <= (if cap < 0 then 0 else cap)
  }

  lemma {:induction false} RemoveKeeps(s: seq<nat>, id: nat)
    requires Distinct(s)
    ensures Distinct(Remove(s, id)) && id !in Remove(s, id)
    ensures forall x :: x != id ==> (x in Remove(s, id) <==> x in s)
    ensures |Remove(s, id)| == if id in s then |s| - 1 else |s|
    ensures id !in s ==> Remove(s, id) == s
    decreases |s|
  {
    if s != [] {
      assert s == [s[0]] + s[1..];
      assert s[0] !in s[1..];
      RemoveKeeps(s[1..], id);
      assert s[0] != id ==> s[0] !in Remove(s[1..], id);
    }
  }

  lemma GotKeeps(s: State, id: nat, now: int, cap: int)
    requires Consistent(s, cap)
    ensures Consistent(Got(s, id, now), cap)
  {
    RemoveKeeps(s.order, id);
  }

  lemma StoredKeeps(s: State, id: nat, summary: Summary, now: int, cap: int, ttl: int)
    requires Consistent(s, cap)
    ensures Consistent(Stored(s, id, summary, now, cap, ttl), cap)
  {
    RemoveKeeps(s.order, id);
    var pushed := [id] + s.order;
    forall x | x in Take(pushed, cap) ensures x in pushed { }
  }

  lemma DropLast(all: map<nat, Entry>, order: seq<nat>)
    requires order != [] && Distinct(order)
    ensures Restrict(all, order) - {order[|order| - 1]} == Restrict(all, order[..|order| - 1])
  {
    assert order == order[..|order| - 1] + [order[|order| - 1]];
  }

  // ---- The cache ----

  class Cache {
    const cap: int
    const ttl: int
    var items: map<nat, Entry>
    var order: seq<nat>

    ghost predicate Valid()
      reads this
    {
      Consistent(Contents(), cap)
    }

    ghost function Contents(): State
      reads this
    {
      State(items, order)
    }

    constructor (capacity: int, ttl: int)
      ensures Valid() && cap == capacity && this.ttl == ttl && Contents() == State(map[], [])
    {
      this.cap, this.ttl, items, order := capacity, ttl, map[], [];
    }

    method Get(id: nat, now: int) returns (r: Option<Summary>)
      requires Valid()
      modifies this`items, this`order
      ensures Valid() && r == old(Found(Contents(), id, now)) && Contents() == old(Got(Contents(), id, now))
    {
      GotKeeps(Contents(), id, now, cap);
      if id !in items { return None; }
      var entry := items[id];
      if !entry.terminal && now > entry.expires {
        order, items := Remove(order, id), items - {id};
        return None;
      }
      order := ToFront(order, id);
      return Some(entry.summary);
    }

    method Set(id: nat, summary: Summary, now: int)
      requires Valid()
      modifies this`items, this`order
      ensures Valid() && Contents() == old(Stored(Contents(), id, summary, now, cap, ttl))
    {
      StoredKeeps(Contents(), id, summary, now, cap, ttl);
      var known := id in items;
      ghost var was := Contents();
      items := items[id := EntryFor(summary, now, ttl)];
      if known {
        order := ToFront(order, id);
        return;
      }
      order := [id] + order;
      Evict();
    }

    method Evict()
      requires Distinct(order) && forall id :: id in items <==> id in order
      modifies this`items, this`order
      ensures order == Take(old(order), cap) && items == Restrict(old(items), order)
    {
      ghost var pushed, all := order, items;
      assert items == Restrict(all, order);
      while |order| > cap
        invariant order <= pushed && |order| >= |Take(pushed, cap)|
        invariant items == Restrict(all, order)
      {
        if order == [] { break; }
        var oldest := order[|order| - 1];
        DropLast(all, order);
        order := order[..|order| - 1];
        items := items - {oldest};
      }
    }

    /** getOrFetch by one caller; `meanwhile` is what another caller may have stored
        between the two looks. A failure or a missing escrow is passed on and not
        remembered. */
    method GetOrFetch(id: nat, now: int, meanwhile: Option<(Summary, int)>, recheck: int, fetched: Fetch<Summary>,
        stored: int)
      returns (r: Fetch<Summary>, called: bool)
      requires Valid()
      modifies this`items, this`order
      ensures Valid()
      ensures (r, called, Contents())
        == old(Fetched(Contents(), id, now, meanwhile, recheck, fetched, stored, cap, ttl))
    {
      called := false;
      var hit := Get(id, now);
      if hit.Some? { return Yields(hit.value), false; }
      if meanwhile.Some? { Set(id, meanwhile.value.0, meanwhile.value.1); }
      hit := Get(id, recheck);
      if hit.Some? { return Yields(hit.value), false; }
      r, called := fetched, true;
      if fetched.Yields? { Set(id, fetched.value, stored); }
    }
  }

  /** The answer of getOrFetch, whether it fetched, and the state it leaves. */
  function Fetched(s: State, id: nat, now: int, meanwhile: Option<(Summary, int)>, recheck: int,
      fetched: Fetch<Summary>, stored: int,
    cap: int, ttl: int): (Fetch<Summary>, bool, State)
  {
    var first, s1 := Found(s, id, now), Got(s, id, now);
    if first.Some? then (Yields(first.value), false, s1)
    else
      var s2 := if meanwhile.Some? then Stored(s1, id, meanwhile.value.0, meanwhile.value.1, cap, ttl) else s1;
      var second, s3 := Found(s2, id, recheck), Got(s2, id, recheck);
      if second.Some? then (Yields(second.value), false, s3)
      else (fetched, true, if fetched.Yields? then Stored(s3, id, fetched.value, stored, cap, ttl) else s3)
  }

  /** Alone, a caller fetches exactly on a miss; when another caller has just
      stored the escrow, it takes that value and does not fetch again. */
  lemma FetchesExactlyOnAMiss(s: State, id: nat, now: int, meanwhile: Option<(Summary, int)>, recheck: int,
      fetched: Fetch<Summary>,
    stored: int, cap: int, ttl: int)
    requires Consistent(s, cap) && cap > 0 && ttl >= 0
    requires meanwhile.Some? ==> meanwhile.value.1 <= recheck <= meanwhile.value.1 + ttl
    ensures var (r, called, _) := Fetched(s, id, now, meanwhile, recheck, fetched, stored, cap, ttl);
      && (called <==> Found(s, id, now).None? && meanwhile.None?)
      && (Found(s, id, now).None? && meanwhile.Some? ==> r == Yields(meanwhile.value.0))
  {
    if Found(s, id, now).None? {
      MissEmpties(s, id, now, recheck, cap);
      var s1 := Got(s, id, now);
      assert id in Take([id] + s1.order, cap) by { assert Take([id] + s1.order, cap)[0] == id; }
    }
  }

  /** After a miss the id is in neither structure, so the second look misses too
      and changes nothing. */
  lemma MissEmpties(s: State, id: nat, now: int, recheck: int, cap: int)
    requires Consistent(s, cap) && Found(s, id, now).None?
    ensures id !in Got(s, id, now).items && Found(Got(s, id, now), id, recheck).None?
    ensures Got(Got(s, id, now), id, recheck) == Got(s, id, now)
  {
  }

  // ---- Runs ----

  datatype Op = Get(id: nat, now: int) | Set(id: nat, summary: Summary, now: int)

  function Next(s: State, op: Op, cap: int, ttl: int): State {
    match op
    case Get(id, now) => Got(s, id, now)
    case Set(id, summary, now) => Stored(s, id, summary, now, cap, ttl)
  }

  lemma NextKeeps(s: State, op: Op, cap: int, ttl: int)
    requires Consistent(s, cap)
    ensures Consistent(Next(s, op, cap, ttl), cap)
  {
    match op
    case Get(id, now) => GotKeeps(s, id, now, cap);
    case Set(id, summary, now) => StoredKeeps(s, id, summary, now, cap, ttl);
  }

  /** An operation on another id leaves an entry as it is, or evicts it. */
  lemma OthersKeepTheEntry(s: State, op: Op, cap: int, ttl: int, id: nat)
    requires op.id != id
    ensures id in Next(s, op, cap, ttl).items ==> id in s.items && Next(s, op, cap, ttl).items[id] == s.items[id]
  {
  }

  lemma JustStored(s: State, id: nat, summary: Summary, now: int, cap: int, ttl: int)
    requires cap > 0
    ensures var t := Stored(s, id, summary, now, cap, ttl);
      id in t.items && t.items[id] == EntryFor(summary, now, ttl)
  {
    assert Take([id] + s.order, cap)[0] == id;
  }

  function After(ops: seq<Op>, cap: int, ttl: int): State {
    if ops == [] then State(map[], []) else Next(After(ops[..|ops| - 1], cap, ttl), ops[|ops| - 1], cap, ttl)
  }

  lemma {:induction false} AlwaysConsistent(ops: seq<Op>, cap: int, ttl: int)
    ensures Consistent(After(ops, cap, ttl), cap)
    decreases |ops|
  {
    if ops != [] {
      AlwaysConsistent(ops[..|ops| - 1], cap, ttl);
      NextKeeps(After(ops[..|ops| - 1], cap, ttl), ops[|ops| - 1], cap, ttl);
    }
  }

  /** The entry of the last set of id. */
  function LastSet(ops: seq<Op>, id: nat, ttl: int): Option<Entry> {
    if ops == [] then None
    else
      var op := ops[|ops| - 1];
      if op.Set? && op.id == id then Some(EntryFor(op.summary, op.now, ttl)) else LastSet(ops[..|ops| - 1], id, ttl)
  }

  lemma {:induction false} HoldsTheLastSet(ops: seq<Op>, cap: int, ttl: int, id: nat)
    ensures id in After(ops, cap, ttl).items ==> LastSet(ops, id, ttl) == Some(After(ops, cap, ttl).items[id])
    decreases |ops|
  {
    if ops != [] {
      HoldsTheLastSet(ops[..|ops| - 1], cap, ttl, id);
    }
  }

  /** A hit after any run returns the value last set for that id, and only if that
      value is released or not older than the time to live. */
  lemma HitIsLastAndFresh(ops: seq<Op>, cap: int, ttl: int, id: nat, now: int)
    requires Found(After(ops, cap, ttl), id, now).Some?
    ensures LastSet(ops, id, ttl).Some?
    ensures var e := LastSet(ops, id, ttl).value;
      Found(After(ops, cap, ttl), id, now) == Some(e.summary) && (e.summary.status == RELEASED || now <= e.expires)
  {
    HoldsTheLastSet(ops, cap, ttl, id);
    LastSetIsAnEntry(ops, id, ttl);
  }

  lemma {:induction false} LastSetIsAnEntry(ops: seq<Op>, id: nat, ttl: int)
    ensures LastSet(ops, id, ttl).Some? ==>
      LastSet(ops, id, ttl).value.terminal == (LastSet(ops, id, ttl).value.summary.status == RELEASED)
    decreases |ops|
  {
    if ops != [] { LastSetIsAnEntry(ops[..|ops| - 1], id, ttl); }
  }

  /** An id still listed is found at any time if its last value is released, and
      otherwise exactly up to its deadline. */
  lemma ListedIsFoundUntilDeadline(ops: seq<Op>, cap: int, ttl: int, id: nat, now: int)
    requires id in After(ops, cap, ttl).order
    ensures LastSet(ops, id, ttl).Some?
    ensures var e := LastSet(ops, id, ttl).value;
      Found(After(ops, cap, ttl), id, now).Some? <==> e.summary.status == RELEASED || now <= e.expires
  {
    AlwaysConsistent(ops, cap, ttl);
    HoldsTheLastSet(ops, cap, ttl, id);
    LastSetIsAnEntry(ops, id, ttl);
  }

  // ---- Recency ----

  /** The ids set or hit, oldest first. */
  function Touches(ops: seq<Op>, cap: int, ttl: int): seq<nat> {
    if ops == [] then []
    else
      var front, op := ops[..|ops| - 1], ops[|ops| - 1];
      if op.Set? || Found(After(front, cap, ttl), op.id, op.now).Some? then Touches(front, cap, ttl) + [op.id]
      else Touches(front, cap, ttl)
  }

  function Reverse(s: seq<nat>): seq<nat> {
    if s == [] then [] else [s[|s| - 1]] + Reverse(s[..|s| - 1])
  }

  /** First occurrences only. */
  function Dedup(s: seq<nat>): seq<nat> {
    if s == [] then [] else [s[0]] + Remove(Dedup(s[1..]), s[0])
  }

  /** No get of the run meets an entry past its deadline. */
  predicate NothingExpires(ops: seq<Op>, cap: int, ttl: int) {
    ops == [] ||
    var front, op := ops[..|ops| - 1], ops[|ops| - 1];
    && NothingExpires(front, cap, ttl)
    && (op.Get? && op.id in After(front, cap, ttl).items ==> !Dead(After(front, cap, ttl).items[op.id], op.now))
  }

  lemma {:induction false} DedupIsDistinct(s: seq<nat>)
    ensures Distinct(Dedup(s))
    decreases |s|
  {
    if s != [] {
      DedupIsDistinct(s[1..]);
      RemoveKeeps(Dedup(s[1..]), s[0]);
    }
  }

  lemma {:induction false} RemoveSplit(a: seq<nat>, b: seq<nat>, id: nat)
    ensures Remove(a + b, id) == Remove(a, id) + Remove(b, id)
    decreases |a|
  {
    if a == [] {
      assert a + b == b;
    } else {
      assert (a + b)[1..] == a[1..] + b;
      RemoveSplit(a[1..], b, id);
    }
  }

  lemma TouchInHead(head: seq<nat>, tail: seq<nat>, id: nat)
    requires Distinct(head + tail) && id in head
    ensures ToFront(head + tail, id) == ToFront(head, id) + tail && |ToFront(head, id)| == |head|
  {
    assert Distinct(head) && id !in tail by {
      var k :| 0 <= k < |head| && head[k] == id;
      assert forall j :: 0 <= j < |tail| ==> (head + tail)[|head| + j] == tail[j];
      assert forall j :: 0 <= j < |head| ==> (head + tail)[j] == head[j];
    }
    RemoveSplit(head, tail, id);
    RemoveKeeps(head, id);
    RemoveAbsent(tail, id);
  }

  lemma {:induction false} RemoveAbsent(s: seq<nat>, id: nat)
    requires id !in s
    ensures Remove(s, id) == s
    decreases |s|
  {
    if s != [] { RemoveAbsent(s[1..], id); }
  }

  lemma TouchOutsideHead(head: seq<nat>, tail: seq<nat>, id: nat)
    requires id !in head
    ensures ToFront(head + tail, id) == [id] + head + Remove(tail, id)
  {
    RemoveSplit(head, tail, id);
    RemoveAbsent(head, id);
  }

  /** Touching the id in the truncated list is truncating the touched list. */
  lemma TouchTruncated(full: seq<nat>, id: nat, cap: int)
    requires Distinct(full)
    ensures id in Take(full, cap) ==> ToFront(Take(full, cap), id) == Take(ToFront(full, id), cap)
    ensures id !in Take(full, cap) ==> Take([id] + Take(full, cap), cap) == Take(ToFront(full, id), cap)
  {
    if 0 < cap < |full| {
      var head, tail := full[..cap], full[cap..];
      assert full == head + tail;
      if id in head { TouchInHead(head, tail, id); } else { TouchOutsideHead(head, tail, id); }
    } else {
      RemoveKeeps(full, id);
    }
  }

  /** Without expiry the list is the first cap distinct ids, latest touch first. */
  lemma {:induction false} OrderIsRecency(ops: seq<Op>, cap: int, ttl: int)
    requires NothingExpires(ops, cap, ttl)
    ensures After(ops, cap, ttl).order == Take(Dedup(Reverse(Touches(ops, cap, ttl))), cap)
    decreases |ops|
  {
    if ops != [] {
      var front, op := ops[..|ops| - 1], ops[|ops| - 1];
      var s, touched := After(front, cap, ttl), Touches(front, cap, ttl);
      OrderIsRecency(front, cap, ttl);
      AlwaysConsistent(front, cap, ttl);
      DedupIsDistinct(Reverse(touched));
      TouchTruncated(Dedup(Reverse(touched)), op.id, cap);
      assert (touched + [op.id])[..|touched|] == touched;
      assert ([op.id] + Reverse(touched))[1..] == Reverse(touched);
      assert Dedup(Reverse(touched + [op.id])) == ToFront(Dedup(Reverse(touched)), op.id);
    }
  }
}
