/** Least-recently-used choice of account and proposal keys: the row with the
    oldest updated_at is taken and stamped with the current time. */
module KeyScheduler {
  import opened Common

  /** One committed choice; the clock reading is the new stamp. */
  datatype Choice = Choice(key: nat, now: int)

  /** updated_at by key id. */
  type Stamps = map<nat, int>

  /** Some row with the least stamp among the candidates; ties are the
      database's. */
  ghost predicate IsOldest(stamps: Stamps, candidates: set<nat>, key: nat) {
    key in candidates && candidates <= stamps.Keys && forall other :: other in candidates ==>
      stamps[key] <= stamps[other]
  }

  // ---- Runs ----

  function StampsAfter(stamps: Stamps, run: seq<Choice>): (r: Stamps)
    ensures stamps.Keys <= r.Keys
  {
    if run == [] then stamps
    else StampsAfter(stamps, run[..|run| - 1])[run[|run| - 1].key := run[|run| - 1].now]
  }

  /** Every choice takes the oldest key of its group: the keys of one account, or
      the first `limit` proposal keys. */
  ghost predicate Legal(stamps: Stamps, groups: map<nat, set<nat>>, run: seq<Choice>) {
    forall i :: 0 <= i < |run| ==> LegalAt(stamps, groups, run, i)
  }

  ghost predicate LegalAt(stamps: Stamps, groups: map<nat, set<nat>>, run: seq<Choice>, i: nat)
    requires i < |run|
  {
    run[i].key in groups && IsOldest(StampsAfter(stamps, run[..i]), groups[run[i].key], run[i].key)
  }

  /** The groups are disjoint sets of keys, each listed under its members. */
  ghost predicate Grouped(groups: map<nat, set<nat>>) {
    forall k :: k in groups ==> k in groups[k] && forall j :: j in groups[k] ==> j in groups && groups[j] == groups[k]
  }

  /** The clock strictly increases and starts after every stored stamp. */
  ghost predicate Ticking(stamps: Stamps, run: seq<Choice>) {
    && (forall i, j :: 0 <= i < j < |run| ==> run[i].now < run[j].now)
    && (forall k, i :: k in stamps && 0 <= i < |run| ==> stamps[k] < run[i].now)
  }

  lemma LegalNext(stamps: Stamps, groups: map<nat, set<nat>>, run: seq<Choice>, c: Choice)
    requires Legal(stamps, groups, run) && c.key in groups && IsOldest(StampsAfter(stamps, run), groups[c.key], c.key)
    ensures Legal(stamps, groups, run + [c])
      && StampsAfter(stamps, run + [c]) == StampsAfter(stamps, run)[c.key := c.now]
  {
    var longer := run + [c];
    assert longer[..|run|] == run;
    forall i | 0 <= i < |longer| ensures LegalAt(stamps, groups, longer, i) {
      if i < |run| { assert LegalAt(stamps, groups, run, i) && longer[..i] == run[..i]; }
    }
  }

  lemma OldestExists(stamps: Stamps, candidates: set<nat>)
    requires candidates != {} && candidates <= stamps.Keys
    ensures exists key :: key in candidates && forall other :: other in candidates ==> stamps[key] <= stamps[other]
    decreases |candidates|
  {
    var some :| some in candidates;
    var rest := candidates - {some};
    var least := some;
    if rest != {} {
      OldestExists(stamps, rest);
      var key :| key in rest && forall other :: other in rest ==> stamps[key] <= stamps[other];
      least := if stamps[some] <= stamps[key] then some else key;
    }
    assert forall other :: other in candidates ==> other == some || other in rest;
    assert least in candidates && forall other :: other in candidates ==> stamps[least] <= stamps[other];
  }

  // ---- The two queries ----

  datatype Row = Row(address: string, keyIndex: int)

  function KeysOf(rows: map<nat, Row>, address: string): set<nat> {
    set k | k in rows && rows[k].address == address
  }

  /** The keys with fewer than `limit` smaller ids; a negative limit is none. */
  function FirstKeys(rows: map<nat, Row>, limit: int): set<nat> {
    set k | k in rows && (limit < 0 || |Below(rows.Keys, k)| < limit)
  }

  function Below(ids: set<nat>, k: nat): set<nat> {
    set j | j in ids && j < k
  }

  lemma {:induction false} GreatestExists(s: set<nat>) returns (m: nat)
    requires s != {}
    ensures m in s && forall k :: k in s ==> k <= m
    decreases |s|
  {
    var some :| some in s;
    var rest := s - {some};
    m := some;
    if rest != {} {
      var least := GreatestExists(rest);
      if least > some { m := least; }
    }
    assert forall k :: k in s ==> k == some || k in rest;
  }

  function Lowest(ids: set<nat>, limit: int): set<nat> {
    set k | k in ids && |Below(ids, k)| < limit
  }

  lemma {:induction false} LowestAreAsMany(ids: set<nat>, limit: int)
    requires limit >= 0
    ensures |Lowest(ids, limit)| == if |ids| < limit then |ids| else limit
    decreases |ids|
  {
    if ids == {} {
      assert Lowest(ids, limit) == {};
    } else {
      var m := GreatestExists(ids);
      var front := ids - {m};
      LowestAreAsMany(front, limit);
      assert Below(ids, m) == front;
      forall k | k in front ensures Below(ids, k) == Below(front, k) { }
      assert Lowest(ids, limit) == Lowest(front, limit) + if |front| < limit then {m} else {};
    }
  }

  lemma BelowGrows(ids: set<nat>, j: nat, k: nat)
    requires j < k
    ensures |Below(ids, j)| <= |Below(ids, k)|
  {
    SubsetSize(Below(ids, j), Below(ids, k));
  }

  lemma SubsetSize(a: set<nat>, b: set<nat>)
    requires a <= b
    ensures |a| <= |b|
  {
    assert b == a + (b - a);
  }

  /** The lowest ids, as many as the limit allows. */
  lemma FirstKeysAreTheLowest(rows: map<nat, Row>, limit: int)
    ensures limit < 0 ==> FirstKeys(rows, limit) == rows.Keys
    ensures limit >= 0 ==> |FirstKeys(rows, limit)| == if |rows.Keys| < limit then |rows.Keys| else limit
    ensures forall j, k :: j in rows && k in FirstKeys(rows, limit) && j < k ==> j in FirstKeys(rows, limit)
  {
    if limit >= 0 {
      LowestAreAsMany(rows.Keys, limit);
      assert FirstKeys(rows, limit) == Lowest(rows.Keys, limit);
    }
    forall j, k | j in rows && k in FirstKeys(rows, limit) && j < k ensures j in FirstKeys(rows, limit) {
      BelowGrows(rows.Keys, j, k);
    }
  }

  function ByAccount(rows: map<nat, Row>): map<nat, set<nat>> {
    map k | k in rows :: KeysOf(rows, rows[k].address)
  }

  function ByLimit(rows: map<nat, Row>, limit: int): map<nat, set<nat>> {
    map k | k in FirstKeys(rows, limit) :: FirstKeys(rows, limit)
  }

  /** ORDER BY updated_at ASC LIMIT 1. */
  method PickOldest(stamps: Stamps, candidates: set<nat>) returns (key: nat)
    requires candidates != {} && candidates <= stamps.Keys
    ensures IsOldest(stamps, candidates, key)
  {
    OldestExists(stamps, candidates);
    key :| key in candidates && forall other :: other in candidates ==> stamps[key] <= stamps[other];
  }

  /** One key table; `run` is what was chosen since `first`. */
  class KeyStore {
    const rows: map<nat, Row>
    var stamps: Stamps
    ghost const groups: map<nat, set<nat>>
    ghost const first: Stamps
    ghost var run: seq<Choice>

    ghost predicate Valid()
      reads this
    {
      && rows.Keys == stamps.Keys && Grouped(groups) && groups.Keys <= rows.Keys
      && stamps == StampsAfter(first, run) && Legal(first, groups, run)
    }

    constructor Accounts(rows: map<nat, Row>, stamps: Stamps)
      requires rows.Keys == stamps.Keys
      ensures Valid() && this.rows == rows && this.stamps == stamps && run == [] && groups == ByAccount(rows)
    {
      this.rows, this.stamps, first, run, groups := rows, stamps, stamps, [], ByAccount(rows);
    }

    constructor Proposals(rows: map<nat, Row>, stamps: Stamps, limit: int)
      requires rows.Keys == stamps.Keys
      ensures Valid() && this.rows == rows && this.stamps == stamps && run == [] && groups == ByLimit(rows, limit)
    {
      this.rows, this.stamps, first, run, groups := rows, stamps, stamps, [], ByLimit(rows, limit);
    }

    method AccountKey(address: string, now: int, fails: bool) returns (r: Option<nat>)
      requires Valid() && groups == ByAccount(rows)
      modifies this`stamps, this`run
      ensures Valid()
      ensures r.None? ==> stamps == old(stamps) && run == old(run) && (fails || KeysOf(rows, address) == {})
      ensures r.Some? ==> IsOldest(old(stamps), KeysOf(rows, address), r.value)
      ensures r.Some? ==> stamps == old(stamps)[r.value := now] && run == old(run) + [Choice(r.value, now)]
    {
      r := TakeOldest(KeysOf(rows, address), now, fails);
    }

    /** The index of the oldest of the first `limit` proposal keys. */
    method ProposalKeyIndex(limit: int, now: int, fails: bool) returns (r: Option<int>)
      requires Valid() && groups == ByLimit(rows, limit)
      modifies this`stamps, this`run
      ensures Valid()
      ensures r.None? ==> stamps == old(stamps) && run == old(run) && (fails || FirstKeys(rows, limit) == {})
      ensures r.Some? ==> |run| == |old(run)| + 1 && run[..|old(run)|] == old(run)
      ensures r.Some? ==> var key := run[|old(run)|].key;
        IsOldest(old(stamps), FirstKeys(rows, limit), key) && rows[key].keyIndex == r.value
          && stamps == old(stamps)[key := now]
    {
      var key := TakeOldest(FirstKeys(rows, limit), now, fails);
      r := if key.Some? then Some(rows[key.value].keyIndex) else None;
    }

    method TakeOldest(candidates: set<nat>, now: int, fails: bool) returns (r: Option<nat>)
      requires Valid() && forall k :: k in candidates ==> k in groups && groups[k] == candidates
      modifies this`stamps, this`run
      ensures Valid()
      ensures r.None? <==> fails || candidates == {}
      ensures r.None? ==> stamps == old(stamps) && run == old(run)
      ensures r.Some? ==> IsOldest(old(stamps), candidates, r.value)
      ensures r.Some? ==> stamps == old(stamps)[r.value := now] && run == old(run) + [Choice(r.value, now)]
    {
      if candidates == {} || fails { return None; }
      var key := PickOldest(stamps, candidates);
      LegalNext(first, groups, run, Choice(key, now));
      stamps := stamps[key := now];
      run := run + [Choice(key, now)];
      return Some(key);
    }
  }

  // ---- Every run ----

  lemma {:induction false} StampsAreOlder(stamps: Stamps, run: seq<Choice>, i: nat, k: nat)
    requires Ticking(stamps, run) && i < |run| && k in StampsAfter(stamps, run[..i])
    ensures StampsAfter(stamps, run[..i])[k] < run[i].now
    decreases i
  {
    if i > 0 {
      assert run[..i][..i - 1] == run[..i - 1];
      if k != run[i - 1].key { StampsAreOlder(stamps, run, i - 1, k); }
    }
  }

  lemma {:induction false} UnchosenKeepsItsStamp(stamps: Stamps, run: seq<Choice>, i: nat, j: nat, k: nat)
    requires i <= j <= |run| && k in StampsAfter(stamps, run[..i])
    requires forall m :: i <= m < j ==> run[m].key != k
    ensures k in StampsAfter(stamps, run[..j]) && StampsAfter(stamps, run[..j])[k] == StampsAfter(stamps, run[..i])[k]
    decreases j
  {
    if i < j {
      UnchosenKeepsItsStamp(stamps, run, i, j - 1, k);
      assert run[..j][..j - 1] == run[..j - 1];
    }
  }

  lemma {:induction false} ChosenHasALaterStamp(stamps: Stamps, run: seq<Choice>, i: nat, j: nat)
    requires Ticking(stamps, run) && i < j <= |run|
    ensures var k := run[i].key; k in StampsAfter(stamps, run[..j]) && StampsAfter(stamps, run[..j])[k] >= run[i].now
    decreases j
  {
    assert run[..j][..j - 1] == run[..j - 1];
    if i < j - 1 { ChosenHasALaterStamp(stamps, run, i, j - 1); }
  }

  /** Between two choices of one key every other key of its group is chosen. */
  lemma EveryOtherKeyComesBetween(stamps: Stamps, groups: map<nat, set<nat>>, run: seq<Choice>, i: nat, j: nat,
      other: nat)
    requires Grouped(groups) && Ticking(stamps, run) && Legal(stamps, groups, run)
    requires i < j < |run| && run[i].key == run[j].key
    requires run[i].key in groups && other in groups[run[i].key] && other != run[i].key
    ensures exists m :: i < m < j && run[m].key == other
  {
    assert LegalAt(stamps, groups, run, i) && LegalAt(stamps, groups, run, j);
    if forall m :: i < m < j ==> run[m].key != other {
      UnchosenKeepsItsStamp(stamps, run, i, j, other);
      StampsAreOlder(stamps, run, i, other);
      ChosenHasALaterStamp(stamps, run, i, j);
      assert false;
    }
  }

  // ---- One group ----

  function KeysIn(run: seq<Choice>): set<nat> {
    set c | c in run :: c.key
  }

  lemma {:induction false} KeysBound(run: seq<Choice>)
    ensures |KeysIn(run)| <= |run|
    ensures (forall i, j :: 0 <= i < j < |run| ==> run[i].key != run[j].key) ==> |KeysIn(run)| == |run|
    decreases |run|
  {
    if run != [] {
      var front, last := run[..|run| - 1], run[|run| - 1];
      KeysBound(front);
      assert run == front + [last];
      assert KeysIn(run) == KeysIn(front) + {last.key};
    }
  }

  lemma SubsetIsSmaller(a: set<nat>, b: set<nat>)
    requires a <= b
    ensures |a| <= |b| && (|a| == |b| ==> a == b)
  {
    assert b == a + (b - a);
  }

  /** All choices are from one group of n keys. */
  ghost predicate OneGroup(groups: map<nat, set<nat>>, run: seq<Choice>, group: set<nat>) {
    forall i :: 0 <= i < |run| ==> run[i].key in groups && groups[run[i].key] == group
  }

  /** Any n consecutive choices over n keys are different. */
  lemma WindowIsDistinct(stamps: Stamps, groups: map<nat, set<nat>>, run: seq<Choice>, group: set<nat>, i: nat, j: nat)
    requires Grouped(groups) && Ticking(stamps, run) && Legal(stamps, groups, run) && OneGroup(groups, run, group)
    requires i < j < |run| && j - i < |group|
    ensures run[i].key != run[j].key
  {
    if run[i].key == run[j].key {
      var between := run[i + 1..j];
      KeysBound(between);
      forall other | other in group - {run[i].key} ensures other in KeysIn(between) {
        EveryOtherKeyComesBetween(stamps, groups, run, i, j, other);
        var m :| i < m < j && run[m].key == other;
        assert between[m - i - 1] == run[m];
      }
      SubsetIsSmaller(group - {run[i].key}, KeysIn(between));
      assert false;
    }
  }

  lemma WindowCovers(stamps: Stamps, groups: map<nat, set<nat>>, run: seq<Choice>, group: set<nat>, i: nat)
    requires Grouped(groups) && Ticking(stamps, run) && Legal(stamps, groups, run) && OneGroup(groups, run, group)
    requires i + |group| <= |run|
    ensures KeysIn(run[i..i + |group|]) == group
  {
    var window := run[i..i + |group|];
    forall a, b | 0 <= a < b < |window| ensures window[a].key != window[b].key {
      WindowIsDistinct(stamps, groups, run, group, i + a, i + b);
    }
    KeysBound(window);
    SubsetIsSmaller(KeysIn(window), group);
  }

  lemma IndexOfKey(run: seq<Choice>, key: nat) returns (a: nat)
    requires key in KeysIn(run)
    ensures a < |run| && run[a].key == key
  {
    var c :| c in run && c.key == key;
    a :| a < |run| && run[a] == c;
  }

  /** The choices repeat with period n. */
  lemma ChoicesArePeriodic(stamps: Stamps, groups: map<nat, set<nat>>, run: seq<Choice>, group: set<nat>, i: nat)
    requires Grouped(groups) && Ticking(stamps, run) && Legal(stamps, groups, run) && OneGroup(groups, run, group)
    requires i + |group| < |run|
    ensures run[i + |group|].key == run[i].key
  {
    var n := |group|;
    var last := run[i + n].key;
    assert last in group;
    WindowCovers(stamps, groups, run, group, i);
    var at := IndexOfKey(run[i..i + n], last);
    var a := i + at;
    if a > i { WindowIsDistinct(stamps, groups, run, group, a, i + n); }
  }

  // ---- Other groups do not matter ----

  /** The choices from one group. */
  function OfGroup(run: seq<Choice>, group: set<nat>): seq<Choice> {
    if run == [] then []
    else
      var front := OfGroup(run[..|run| - 1], group);
      if run[|run| - 1].key in group then front + [run[|run| - 1]] else front
  }

  lemma {:induction false} GroupKeepsItsStamps(stamps: Stamps, run: seq<Choice>, group: set<nat>, k: nat)
    requires k in group && k in stamps
    ensures StampsAfter(stamps, run)[k] == StampsAfter(stamps, OfGroup(run, group))[k]
    decreases |run|
  {
    if run != [] {
      GroupKeepsItsStamps(stamps, run[..|run| - 1], group, k);
      var own := OfGroup(run, group);
      if run[|run| - 1].key in group { assert own[..|own| - 1] == OfGroup(run[..|run| - 1], group); }
    }
  }

  /** The calls for one account among any others form a legal run by themselves. */
  lemma {:induction false} OtherAccountsDoNotMatter(stamps: Stamps, groups: map<nat, set<nat>>, run: seq<Choice>,
      group: set<nat>)
    requires Grouped(groups) && Legal(stamps, groups, run) && group <= stamps.Keys
    requires forall k :: k in groups ==> (k in group <==> groups[k] == group)
    ensures Legal(stamps, groups, OfGroup(run, group)) && OneGroup(groups, OfGroup(run, group), group)
    decreases |run|
  {
    if run != [] {
      var front, last := run[..|run| - 1], run[|run| - 1];
      assert LegalAt(stamps, groups, run, |run| - 1);
      forall i | 0 <= i < |front| ensures LegalAt(stamps, groups, front, i) {
        assert LegalAt(stamps, groups, run, i) && front[..i] == run[..i];
      }
      OtherAccountsDoNotMatter(stamps, groups, front, group);
      if last.key in group {
        var before := OfGroup(front, group);
        var own := before + [last];
        forall k | k in group ensures StampsAfter(stamps, front)[k] == StampsAfter(stamps, before)[k] {
          GroupKeepsItsStamps(stamps, front, group, k);
        }
        forall i | 0 <= i < |own| ensures LegalAt(stamps, groups, own, i) {
          if i < |before| {
            assert LegalAt(stamps, groups, before, i) && before[..i] == own[..i];
          } else {
            assert own[..i] == before;
          }
        }
      }
    }
  }
}
