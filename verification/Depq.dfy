/**
 * The double-ended priority queue: two indexes kept side by side, with capacity eviction. Its meaning is one plain
 * map from keys to priority and value.
 */
module PriorityQueue {
  import opened RaftTypes
  import opened SnapshotProtocol
  import opened FullLog
  import opened LogBatches
  import opened Sorting

  type Key(==, !new)
  type Value(==, !new)
  type Priority = int

  /** The contents of the queue as one plain map. */
  type Contents = map<Key, (Priority, Value)>
  type Buckets = map<Priority, map<Key, Value>>

  datatype Indexes = Indexes(byKey: Contents, byPriority: Buckets)

  // ---------------------------------------------------------------- agreement of the two indexes

  function Priorities(m: Contents): set<Priority> {
    set k | k in m :: m[k].0
  }

  function Bucket(m: Contents, p: Priority): map<Key, Value> {
    map k | k in m && m[k].0 == p :: m[k].1
  }

  /** The second index computed from the first. */
  function Grouped(m: Contents): Buckets {
    map p | p in Priorities(m) :: Bucket(m, p)
  }

  predicate Filed(d: Indexes, p: Priority, k: Key, v: Value) {
    p in d.byPriority && k in d.byPriority[p] && d.byPriority[p][k] == v
  }

  /** A key is filed under a priority with a value exactly when the key index says so, and no bucket is empty. */
  ghost predicate Agree(d: Indexes) {
    && (forall p, k, v :: Filed(d, p, k, v) <==> k in d.byKey && d.byKey[k] == (p, v))
    && (forall p :: p in d.byPriority ==> d.byPriority[p].Keys != {})
  }

  lemma BucketsAgree(m: Contents)
    ensures Agree(Indexes(m, Grouped(m)))
  {
    forall p | p in Priorities(m)
      ensures Bucket(m, p).Keys != {}
    {
      var k :| k in m && m[k].0 == p;
      assert k in Bucket(m, p);
    }
  }

  lemma AgreeingBucket(d: Indexes, p: Priority)
    requires Agree(d)
    ensures p in d.byPriority <==> p in Priorities(d.byKey)
    ensures p in d.byPriority ==> d.byPriority[p] == Bucket(d.byKey, p)
  {
    if p in d.byPriority {
      forall k | k in d.byPriority[p]
        ensures k in d.byKey && d.byKey[k] == (p, d.byPriority[p][k])
      {
        assert Filed(d, p, k, d.byPriority[p][k]);
      }
      forall k | k in Bucket(d.byKey, p)
        ensures k in d.byPriority[p]
      {
        assert Filed(d, p, k, d.byKey[k].1);
      }
      var k :| k in d.byPriority[p].Keys;
    }
    if p in Priorities(d.byKey) {
      var k :| k in d.byKey && d.byKey[k].0 == p;
      assert Filed(d, p, k, d.byKey[k].1);
    }
  }

  /** Two indexes agree exactly when the second is the one computed from the first. */
  lemma AgreementIsGrouping(d: Indexes)
    ensures Agree(d) <==> d.byPriority == Grouped(d.byKey)
  {
    if Agree(d) {
      forall p: Priority
        ensures p in d.byPriority.Keys <==> p in Priorities(d.byKey)
      {
        AgreeingBucket(d, p);
      }
      assert d.byPriority.Keys == Grouped(d.byKey).Keys;
      forall p | p in d.byPriority
        ensures d.byPriority[p] == Grouped(d.byKey)[p]
      {
        AgreeingBucket(d, p);
      }
    }
    if d.byPriority == Grouped(d.byKey) {
      assert d == Indexes(d.byKey, Grouped(d.byKey));
      BucketsAgree(d.byKey);
    }
  }

  function WithFiled(g: Buckets, p: Priority, k: Key, v: Value): Buckets {
    g[p := (if p in g then g[p] else map[])[k := v]]
  }

  function WithoutFiled(g: Buckets, p: Priority, k: Key): Buckets {
    if p !in g then g
    else if (g[p] - {k}).Keys == {} then g - {p}
    else g[p := g[p] - {k}]
  }

  lemma FilingNewKey(m: Contents, p: Priority, k: Key, v: Value)
    requires k !in m
    ensures WithFiled(Grouped(m), p, k, v) == Grouped(m[k := (p, v)])
  {
    var m' := m[k := (p, v)];
    assert Bucket(m', p) == Bucket(m, p)[k := v];
    assert p !in Priorities(m) ==> Bucket(m, p) == map[];
    assert forall q :: q != p ==> Bucket(m', q) == Bucket(m, q);
    forall q: Priority
      ensures q in Priorities(m') <==> q == p || q in Priorities(m)
    {
      if q == p {
        assert m'[k].0 == q;
      }
      if q in Priorities(m) {
        var j :| j in m && m[j].0 == q;
        assert j in m' && m'[j].0 == q;
      }
      if q in Priorities(m') {
        var j :| j in m' && m'[j].0 == q;
        assert j != k ==> j in m && m[j].0 == q;
      }
    }
  }

  lemma UnfilingKey(m: Contents, k: Key)
    requires k in m
    ensures WithoutFiled(Grouped(m), m[k].0, k) == Grouped(m - {k})
  {
    var p, m' := m[k].0, m - {k};
    assert p in Priorities(m);
    assert Bucket(m', p) == Bucket(m, p) - {k};
    assert forall q :: q != p ==> Bucket(m', q) == Bucket(m, q);
    forall q: Priority
      ensures q in Priorities(m') <==> q in Priorities(m) && (q == p ==> Bucket(m', p).Keys != {})
    {
      if q in Priorities(m') {
        var j :| j in m' && m'[j].0 == q;
        assert j in m && m[j].0 == q && j in Bucket(m', q);
      }
      if q in Priorities(m) && q != p {
        var j :| j in m && m[j].0 == q;
        assert j in m' && m'[j].0 == q;
      }
      if Bucket(m', p).Keys != {} {
        var j :| j in Bucket(m', p).Keys;
        assert j in m' && m'[j].0 == p;
      }
    }
  }

  // ---------------------------------------------------------------- commands on one plain map

  /** The key a bucket's iteration yields first: some fixed function of the bucket's contents. */
  ghost predicate PicksMember(pick: map<Key, Value> -> Key) {
    forall b: map<Key, Value> {:trigger pick(b)} :: b.Keys != {} ==> pick(b) in b
  }

  predicate IsLowest(ps: set<Priority>, p: Priority) {
    p in ps && forall q :: q in ps ==> p <= q
  }

  lemma {:induction false} SomeIsLowest(m: Contents)
    requires m.Keys != {}
    ensures exists p :: IsLowest(Priorities(m), p)
    decreases m.Keys
  {
    var k :| k in m.Keys;
    var rest := m - {k};
    assert Priorities(m) == Priorities(rest) + {m[k].0} by {
      assert forall j :: j in m <==> j == k || j in rest;
      assert forall j :: j in rest ==> rest[j] == m[j];
    }
    if rest.Keys == {} {
      assert IsLowest(Priorities(m), m[k].0);
    } else {
      SomeIsLowest(rest);
      var low :| IsLowest(Priorities(rest), low);
      assert IsLowest(Priorities(m), if m[k].0 <= low then m[k].0 else low);
    }
  }

  function Lowest(m: Contents): (p: Priority)
    requires m.Keys != {}
    ensures IsLowest(Priorities(m), p) && Bucket(m, p).Keys != {}
  {
    SomeIsLowest(m);
    var p :| IsLowest(Priorities(m), p);
    BucketsAgree(m);
    assert p in Grouped(m);
    p
  }

  /** The entry to give up: one of the lowest priority there is. */
  function Victim(m: Contents, pick: map<Key, Value> -> Key): (k: Key)
    requires m.Keys != {} && PicksMember(pick)
    ensures k in m && forall j :: j in m ==> m[k].0 <= m[j].0
  {
    assert forall j :: j in m ==> m[j].0 in Priorities(m);
    pick(Bucket(m, Lowest(m)))
  }

  /** Gives up lowest-priority entries until the capacity is met. */
  function Fit(m: Contents, cap: nat, pick: map<Key, Value> -> Key): (r: Contents)
    requires PicksMember(pick)
    ensures |r.Keys| <= cap
    decreases m.Keys
  {
    if |m.Keys| <= cap then m else Fit(m - {Victim(m, pick)}, cap, pick)
  }

  datatype Item = Item(priority: Priority, key: Key, value: Value)

  function Put(m: Contents, e: Item, cap: nat, pick: map<Key, Value> -> Key): Contents
    requires PicksMember(pick)
  {
    Fit(m[e.key := (e.priority, e.value)], cap, pick)
  }

  function PutAll(m: Contents, entries: seq<Item>, cap: nat, pick: map<Key, Value> -> Key): Contents
    requires PicksMember(pick)
  {
    if entries == [] then m
    else Put(PutAll(m, entries[..|entries| - 1], cap, pick), entries[|entries| - 1], cap, pick)
  }

  datatype Bound = Included(at: Priority) | Excluded(at: Priority) | Unbounded

  predicate InRange(start: Bound, end: Bound, p: Priority) {
    && (match start case Included(at) => at <= p case Excluded(at) => at < p case Unbounded => true)
    && (match end case Included(at) => p <= at case Excluded(at) => p < at case Unbounded => true)
  }

  datatype Command =
    | Clear
    | Insert(item: Item)
    | CompareExchangeValue(key: Key, expected: Value, replacement: Option<Value>)
    | Extend(entries: seq<Item>)
    | UpdatePriority(key: Key, priority: Priority)
    | UpdateValue(key: Key, value: Value)
    | RemoveKeys(keys: seq<Key>)
    | RemoveRange(start: Bound, end: Bound)
    | TakeSnapshot(request: SnapshotRequest)

  function Apply(m: Contents, c: Command, cap: nat, pick: map<Key, Value> -> Key): Contents
    requires PicksMember(pick)
  {
    match c
    case Clear => map[]
    case Insert(item) => Put(m, item, cap, pick)
    case CompareExchangeValue(key, expected, replacement) =>
      if key !in m || m[key].1 != expected then m
      else if replacement.Some? then Put(m, Item(m[key].0, key, replacement.value), cap, pick)
      else m - {key}
    case Extend(entries) => PutAll(m, entries, cap, pick)
    case UpdatePriority(key, priority) => if key in m then Put(m, Item(priority, key, m[key].1), cap, pick) else m
    case UpdateValue(key, value) => if key in m then Put(m, Item(m[key].0, key, value), cap, pick) else m
    case RemoveKeys(keys) => m - Members(keys)
    case RemoveRange(start, end) => map k | k in m && !InRange(start, end, m[k].0) :: m[k]
    case TakeSnapshot(_) => m
  }

  function Members(keys: seq<Key>): set<Key> {
    set k | k in keys
  }

  function Run(m: Contents, commands: seq<Command>, cap: nat, pick: map<Key, Value> -> Key): Contents
    requires PicksMember(pick)
  {
    if commands == [] then m
    else Apply(Run(m, commands[..|commands| - 1], cap, pick), commands[|commands| - 1], cap, pick)
  }

  lemma FitDropsOne(m: Contents, cap: nat, pick: map<Key, Value> -> Key)
    requires PicksMember(pick) && |m.Keys| == cap + 1
    ensures Fit(m, cap, pick) == m - {Victim(m, pick)}
  {
    var k := Victim(m, pick);
    var keys := m.Keys;
    assert (m - {k}).Keys == keys - {k};
    assert |keys - {k}| == cap;
  }

  /** Within capacity, putting an entry changes only its key, and costs at most one entry of the lowest priority. */
  lemma PutWithinCapacity(m: Contents, e: Item, cap: nat, pick: map<Key, Value> -> Key)
    requires PicksMember(pick) && |m.Keys| <= cap
    ensures var full := m[e.key := (e.priority, e.value)];
            if e.key in m || |m.Keys| < cap then Put(m, e, cap, pick) == full
            else exists k :: k in full && Put(m, e, cap, pick) == full - {k} && forall j :: j in full ==> full[k].0 <= full[j].0
  {
    var full := m[e.key := (e.priority, e.value)];
    assert full.Keys == m.Keys + {e.key};
    if e.key in m {
      assert full.Keys == m.Keys;
    } else if |m.Keys| == cap {
      FitDropsOne(full, cap, pick);
    }
  }

  /** Changing what is stored under a present key never evicts anything. */
  lemma UpdatesEvictNothing(m: Contents, key: Key, priority: Priority, value: Value, cap: nat, pick: map<Key, Value> -> Key)
    requires PicksMember(pick) && |m.Keys| <= cap && key in m
    ensures Apply(m, UpdatePriority(key, priority), cap, pick) == m[key := (priority, m[key].1)]
    ensures Apply(m, UpdateValue(key, value), cap, pick) == m[key := (m[key].0, value)]
    ensures Apply(m, CompareExchangeValue(key, m[key].1, Some(value)), cap, pick) == m[key := (m[key].0, value)]
  {
    PutWithinCapacity(m, Item(priority, key, m[key].1), cap, pick);
    PutWithinCapacity(m, Item(m[key].0, key, value), cap, pick);
  }

  lemma ApplyStaysWithinCapacity(m: Contents, c: Command, cap: nat, pick: map<Key, Value> -> Key)
    requires PicksMember(pick) && |m.Keys| <= cap
    ensures |Apply(m, c, cap, pick).Keys| <= cap
  {
    match c
    case CompareExchangeValue(key, _, _) => SubsetSize((m - {key}).Keys, m.Keys);
    case RemoveKeys(keys) => SubsetSize((m - Members(keys)).Keys, m.Keys);
    case RemoveRange(_, _) => SubsetSize(Apply(m, c, cap, pick).Keys, m.Keys);
    case _ =>
  }

  lemma {:induction false} RunStaysWithinCapacity(m: Contents, commands: seq<Command>, cap: nat, pick: map<Key, Value> -> Key)
    requires PicksMember(pick) && |m.Keys| <= cap
    ensures |Run(m, commands, cap, pick).Keys| <= cap
  {
    if commands != [] {
      var n := |commands| - 1;
      RunStaysWithinCapacity(m, commands[..n], cap, pick);
      ApplyStaysWithinCapacity(Run(m, commands[..n], cap, pick), commands[n], cap, pick);
    }
  }

  // ---------------------------------------------------------------- what each command leaves, written out

  /** The entry under its key, whatever was there, less one entry of the lowest priority if a new key finds the queue full. */
  ghost predicate Inserted(m: Contents, e: Item, cap: nat, r: Contents) {
    var full := m[e.key := (e.priority, e.value)];
    if e.key in m || |m.Keys| < cap then r == full
    else exists k :: k in full && r == full - {k} && forall j :: j in full ==> full[k].0 <= full[j].0
  }

  ghost predicate InsertedAt(states: seq<Contents>, entries: seq<Item>, cap: nat, i: nat)
    requires |states| == |entries| + 1 && i < |entries|
  {
    Inserted(states[i], entries[i], cap, states[i + 1])
  }

  /** The entries inserted one after another. */
  ghost predicate InsertsInTurn(m: Contents, entries: seq<Item>, cap: nat, r: Contents, states: seq<Contents>) {
    && |states| == |entries| + 1 && states[0] == m && states[|entries|] == r
    && forall i :: 0 <= i < |entries| ==> InsertedAt(states, entries, cap, i)
  }

  predicate Outside(start: Bound, end: Bound, p: Priority) {
    || (start.Included? && p < start.at) || (start.Excluded? && p <= start.at)
    || (end.Included? && end.at < p) || (end.Excluded? && end.at <= p)
  }

  ghost predicate Leaves(m: Contents, c: Command, cap: nat, r: Contents) {
    match c
    case Clear => r == map[]
    case Insert(item) => Inserted(m, item, cap, r)
    case CompareExchangeValue(key, expected, replacement) =>
      if key !in m || m[key].1 != expected then r == m
      else if replacement.None? then r == map k | k in m && k != key :: m[k]
      else r == m[key := (m[key].0, replacement.value)]
    case Extend(entries) => exists states :: InsertsInTurn(m, entries, cap, r, states)
    case UpdatePriority(key, priority) => r == if key in m then m[key := (priority, m[key].1)] else m
    case UpdateValue(key, value) => r == if key in m then m[key := (m[key].0, value)] else m
    case RemoveKeys(keys) => r == map k | k in m && k !in keys :: m[k]
    case RemoveRange(start, end) => r == map k | k in m && Outside(start, end, m[k].0) :: m[k]
    case TakeSnapshot(_) => r == m
  }

  function PutStates(m: Contents, entries: seq<Item>, cap: nat, pick: map<Key, Value> -> Key): seq<Contents>
    requires PicksMember(pick)
  {
    seq(|entries| + 1, i requires 0 <= i <= |entries| => PutAll(m, entries[..i], cap, pick))
  }

  lemma PutIsInsertion(m: Contents, e: Item, cap: nat, pick: map<Key, Value> -> Key)
    requires PicksMember(pick) && |m.Keys| <= cap
    ensures Inserted(m, e, cap, Put(m, e, cap, pick))
  {
    PutWithinCapacity(m, e, cap, pick);
  }

  lemma PutAllWithinCapacity(m: Contents, entries: seq<Item>, cap: nat, pick: map<Key, Value> -> Key)
    requires PicksMember(pick) && |m.Keys| <= cap
    ensures |PutAll(m, entries, cap, pick).Keys| <= cap
  {
  }

  lemma ExtendInsertsInTurn(m: Contents, entries: seq<Item>, cap: nat, pick: map<Key, Value> -> Key)
    requires PicksMember(pick) && |m.Keys| <= cap
    ensures InsertsInTurn(m, entries, cap, PutAll(m, entries, cap, pick), PutStates(m, entries, cap, pick))
  {
    var states := PutStates(m, entries, cap, pick);
    assert entries[..|entries|] == entries;
    forall i | 0 <= i < |entries|
      ensures InsertedAt(states, entries, cap, i)
    {
      assert entries[..i + 1][..i] == entries[..i];
      PutAllWithinCapacity(m, entries[..i], cap, pick);
      PutIsInsertion(states[i], entries[i], cap, pick);
    }
  }

  /** Within capacity every command leaves what is written out for it, and stays within capacity. */
  lemma CommandsLeave(m: Contents, c: Command, cap: nat, pick: map<Key, Value> -> Key)
    requires PicksMember(pick) && |m.Keys| <= cap
    ensures Leaves(m, c, cap, Apply(m, c, cap, pick))
  {
    match c
    case Insert(item) => PutIsInsertion(m, item, cap, pick);
    case CompareExchangeValue(key, _, replacement) =>
      if key in m && replacement.Some? {
        UpdatesEvictNothing(m, key, m[key].0, replacement.value, cap, pick);
      }
    case Extend(entries) => ExtendInsertsInTurn(m, entries, cap, pick);
    case UpdatePriority(key, priority) =>
      if key in m {
        UpdatesEvictNothing(m, key, priority, m[key].1, cap, pick);
      }
    case UpdateValue(key, value) =>
      if key in m {
        UpdatesEvictNothing(m, key, m[key].0, value, cap, pick);
      }
    case _ =>
  }

  ghost predicate LeavesAt(m: Contents, commands: seq<Command>, cap: nat, pick: map<Key, Value> -> Key, i: nat)
    requires PicksMember(pick) && i < |commands|
  {
    Leaves(Run(m, commands[..i], cap, pick), commands[i], cap, Run(m, commands[..i + 1], cap, pick))
  }

  /** So it is at every command of every run. */
  lemma EveryCommandLeaves(m: Contents, commands: seq<Command>, cap: nat, pick: map<Key, Value> -> Key, i: nat)
    requires PicksMember(pick) && |m.Keys| <= cap && i < |commands|
    ensures LeavesAt(m, commands, cap, pick, i)
  {
    RunStaysWithinCapacity(m, commands[..i], cap, pick);
    assert commands[..i + 1][..i] == commands[..i];
    CommandsLeave(Run(m, commands[..i], cap, pick), commands[i], cap, pick);
  }

  function KeysOf(entries: seq<Item>): set<Key> {
    set i | 0 <= i < |entries| :: entries[i].key
  }

  /** Entry `i` is the last one of its key. */
  predicate LastOfKey(entries: seq<Item>, i: int) {
    0 <= i < |entries| && forall j :: i < j < |entries| ==> entries[j].key != entries[i].key
  }

  /** The last entry of each key, and what was there under the other keys. */
  ghost predicate Extended(m: Contents, entries: seq<Item>, r: Contents) {
    && r.Keys == m.Keys + KeysOf(entries)
    && (forall k :: k in m && k !in KeysOf(entries) ==> r[k] == m[k])
    && (forall i :: LastOfKey(entries, i) ==> r[entries[i].key] == (entries[i].priority, entries[i].value))
  }

  lemma KeysOfOneMore(entries: seq<Item>)
    requires entries != []
    ensures KeysOf(entries) == KeysOf(entries[..|entries| - 1]) + {entries[|entries| - 1].key}
  {
    var n := |entries| - 1;
    var front := entries[..n];
    assert forall i :: 0 <= i < n ==> front[i] == entries[i];
    assert entries[n].key in KeysOf(entries);
    forall k | k in KeysOf(front)
      ensures k in KeysOf(entries)
    {
      var i :| 0 <= i < n && front[i].key == k;
      assert entries[i].key == k;
    }
    forall k | k in KeysOf(entries) && k != entries[n].key
      ensures k in KeysOf(front)
    {
      var i :| 0 <= i < |entries| && entries[i].key == k;
      assert front[i].key == k;
    }
  }

  lemma ExtendedByOne(m: Contents, entries: seq<Item>, r: Contents)
    requires entries != [] && Extended(m, entries[..|entries| - 1], r)
    ensures var e := entries[|entries| - 1]; Extended(m, entries, r[e.key := (e.priority, e.value)])
  {
    var n := |entries| - 1;
    var front := entries[..n];
    KeysOfOneMore(entries);
    forall i | LastOfKey(entries, i) && i < n
      ensures LastOfKey(front, i) && front[i] == entries[i] && entries[i].key != entries[n].key
    {
    }
  }

  lemma PutThatFits(m: Contents, e: Item, cap: nat, pick: map<Key, Value> -> Key)
    requires PicksMember(pick) && |m.Keys + {e.key}| <= cap
    ensures Put(m, e, cap, pick) == m[e.key := (e.priority, e.value)]
  {
    assert m[e.key := (e.priority, e.value)].Keys == m.Keys + {e.key};
  }

  lemma KeysGrow(m: Contents, entries: seq<Item>, before: Contents)
    requires entries != [] && before.Keys == m.Keys + KeysOf(entries[..|entries| - 1])
    ensures before.Keys + {entries[|entries| - 1].key} == m.Keys + KeysOf(entries)
  {
    KeysOfOneMore(entries);
  }

  lemma LastOneFits(m: Contents, entries: seq<Item>, before: Contents, cap: nat, pick: map<Key, Value> -> Key)
    requires PicksMember(pick) && entries != [] && |m.Keys + KeysOf(entries)| <= cap
    requires Extended(m, entries[..|entries| - 1], before)
    ensures Extended(m, entries, Put(before, entries[|entries| - 1], cap, pick))
  {
    var e := entries[|entries| - 1];
    KeysGrow(m, entries, before);
    PutThatFits(before, e, cap, pick);
    ExtendedByOne(m, entries, before);
  }

  lemma FrontFits(m: Contents, entries: seq<Item>)
    requires entries != []
    ensures |m.Keys + KeysOf(entries[..|entries| - 1])| <= |m.Keys + KeysOf(entries)|
  {
    KeysOfOneMore(entries);
    SubsetSize(m.Keys + KeysOf(entries[..|entries| - 1]), m.Keys + KeysOf(entries));
  }

  lemma {:induction false} PutAllKeepsLast(m: Contents, entries: seq<Item>, cap: nat, pick: map<Key, Value> -> Key)
    requires PicksMember(pick) && |m.Keys + KeysOf(entries)| <= cap
    ensures Extended(m, entries, PutAll(m, entries, cap, pick))
  {
    if entries == [] {
      assert KeysOf(entries) == {};
    } else {
      FrontFits(m, entries);
      var front := entries[..|entries| - 1];
      PutAllKeepsLast(m, front, cap, pick);
      LastOneFits(m, entries, PutAll(m, front, cap, pick), cap, pick);
    }
  }

  /** Extending a queue with room for all the keys leaves each key its last entry, and the others what they had. */
  lemma ExtendKeepsLast(m: Contents, entries: seq<Item>, cap: nat, pick: map<Key, Value> -> Key)
    requires PicksMember(pick) && |m.Keys + KeysOf(entries)| <= cap
    ensures Extended(m, entries, Apply(m, Extend(entries), cap, pick))
  {
    PutAllKeepsLast(m, entries, cap, pick);
  }

  // ---------------------------------------------------------------- snapshot labels

  /** A compare-exchange that finds the key with another value. */
  predicate FailsExchange(m: Contents, c: Command) {
    c.CompareExchangeValue? && c.key in m && m[c.key].1 != c.expected
  }

  /** The commands of a batch that the batch counter counts. */
  function Counted(m: Contents, commands: seq<Command>, cap: nat, pick: map<Key, Value> -> Key): nat
    requires PicksMember(pick)
  {
    if commands == [] then 0
    else
      var n := |commands| - 1;
      Counted(m, commands[..n], cap, pick) + if FailsExchange(Run(m, commands[..n], cap, pick), commands[n]) then 0 else 1
  }

  lemma {:induction false} CountedAtMost(m: Contents, commands: seq<Command>, cap: nat, pick: map<Key, Value> -> Key)
    requires PicksMember(pick)
    ensures Counted(m, commands, cap, pick) <= |commands|
  {
    if commands != [] {
      CountedAtMost(m, commands[..|commands| - 1], cap, pick);
    }
  }

  predicate FailsAt(m: Contents, commands: seq<Command>, i: nat, cap: nat, pick: map<Key, Value> -> Key)
    requires PicksMember(pick) && i < |commands|
  {
    FailsExchange(Run(m, commands[..i], cap, pick), commands[i])
  }

  ghost predicate NoneFailsBefore(m: Contents, commands: seq<Command>, n: nat, cap: nat, pick: map<Key, Value> -> Key)
    requires PicksMember(pick) && n <= |commands|
  {
    forall i :: 0 <= i < n ==> !FailsAt(m, commands, i, cap, pick)
  }

  lemma {:induction false} CountedBefore(m: Contents, commands: seq<Command>, n: nat, cap: nat, pick: map<Key, Value> -> Key)
    requires PicksMember(pick) && n <= |commands|
    ensures Counted(m, commands[..n], cap, pick) == n <==> NoneFailsBefore(m, commands, n, cap, pick)
  {
    if n > 0 {
      var k: nat := n - 1;
      var front, c := commands[..k], commands[k];
      CountedBefore(m, commands, k, cap, pick);
      CountedAtMost(m, front, cap, pick);
      assert front + [c] == commands[..n];
      RunNext(m, front, c, cap, pick);
      OneMoreSucceeds(m, commands, k, cap, pick);
    }
  }

  lemma OneMoreSucceeds(m: Contents, commands: seq<Command>, k: nat, cap: nat, pick: map<Key, Value> -> Key)
    requires PicksMember(pick) && k < |commands|
    ensures NoneFailsBefore(m, commands, k + 1, cap, pick) <==>
            NoneFailsBefore(m, commands, k, cap, pick) && !FailsExchange(Run(m, commands[..k], cap, pick), commands[k])
  {
    assert FailsAt(m, commands, k, cap, pick) == FailsExchange(Run(m, commands[..k], cap, pick), commands[k]);
  }

  /** The counter is the length of the batch exactly when no compare-exchange in it fails. */
  lemma LabelExactCondition(m: Contents, commands: seq<Command>, cap: nat, pick: map<Key, Value> -> Key)
    requires PicksMember(pick)
    ensures Counted(m, commands, cap, pick) == |commands| <==> NoneFailsBefore(m, commands, |commands|, cap, pick)
  {
    assert commands[..|commands|] == commands;
    CountedBefore(m, commands, |commands|, cap, pick);
  }

  lemma RunNext(m: Contents, commands: seq<Command>, c: Command, cap: nat, pick: map<Key, Value> -> Key)
    requires PicksMember(pick)
    ensures Run(m, commands + [c], cap, pick) == Apply(Run(m, commands, cap, pick), c, cap, pick)
    ensures Counted(m, commands + [c], cap, pick) ==
            Counted(m, commands, cap, pick) + if FailsExchange(Run(m, commands, cap, pick), c) then 0 else 1
  {
    assert (commands + [c])[..|commands|] == commands;
  }

  lemma FailedThenTaken(m: Contents, failing: Command, taking: Command, cap: nat, pick: map<Key, Value> -> Key)
    requires PicksMember(pick) && FailsExchange(m, failing) && taking.TakeSnapshot?
    ensures Run(m, [failing, taking], cap, pick) == m && Counted(m, [failing, taking], cap, pick) == 1
  {
    RunNext(m, [], failing, cap, pick);
    assert [] + [failing] == [failing];
    RunNext(m, [failing], taking, cap, pick);
    assert [failing] + [taking] == [failing, taking];
  }

  /**
   * A batch of a failed compare-exchange, a snapshot request and an insert is labelled as two commands, but the
   * snapshot holds an entry that the queue after two commands does not.
   */
  lemma FailedExchangeShiftsLabel(key: Key, held: Value, expected: Value, request: SnapshotRequest, item: Item, cap: nat, pick: map<Key, Value> -> Key)
    requires PicksMember(pick) && held != expected && item.key != key && cap >= 2
    ensures var m: Contents := map[key := (0, held)];
            var batch := [CompareExchangeValue(key, expected, None), TakeSnapshot(request), Insert(item)];
            && Counted(m, batch, cap, pick) == 2
            && item.key in Run(m, batch, cap, pick) && item.key !in Run(m, batch[..2], cap, pick)
  {
    var m: Contents := map[key := (0, held)];
    var failing, taking, inserting := CompareExchangeValue(key, expected, None), TakeSnapshot(request), Insert(item);
    FailedThenTaken(m, failing, taking, cap, pick);
    RunNext(m, [failing, taking], inserting, cap, pick);
    assert [failing, taking] + [inserting] == [failing, taking, inserting];
    assert [failing, taking, inserting][..2] == [failing, taking];
    PutSingle(m, key, item, cap, pick);
  }

  lemma PutSingle(m: Contents, key: Key, item: Item, cap: nat, pick: map<Key, Value> -> Key)
    requires PicksMember(pick) && m.Keys == {key} && item.key != key && cap >= 2
    ensures item.key in Put(m, item, cap, pick)
  {
    PutWithinCapacity(m, item, cap, pick);
  }

  // ---------------------------------------------------------------- labels of batched logs

  type Log = seq<Entry<Command>>

  /** The queue of a provider that applied its log batch by batch. */
  function Applied(batches: seq<Log>, cap: nat, pick: map<Key, Value> -> Key): Contents
    requires PicksMember(pick)
  {
    if batches == [] then map[]
    else Run(Applied(batches[..|batches| - 1], cap, pick), CommandsOf(batches[|batches| - 1]), cap, pick)
  }

  /** The position it gives a snapshot taken with its last batch. */
  function AnchorOf(batches: seq<Log>, cap: nat, pick: map<Key, Value> -> Key): Cursor
    requires PicksMember(pick) && batches != [] && batches[|batches| - 1] != []
  {
    var n := |batches| - 1;
    Cursor(batches[n][0].term, |Joined(batches[..n])| + Counted(Applied(batches[..n], cap, pick), CommandsOf(batches[n]), cap, pick))
  }

  /** No compare-exchange of the last batch finds another value than it expects. */
  ghost predicate NoneFails(batches: seq<Log>, cap: nat, pick: map<Key, Value> -> Key)
    requires PicksMember(pick) && batches != []
  {
    var before, commands := Applied(batches[..|batches| - 1], cap, pick), CommandsOf(batches[|batches| - 1]);
    NoneFailsBefore(before, commands, |commands|, cap, pick)
  }

  lemma {:induction false} RunInParts(m: Contents, a: seq<Command>, b: seq<Command>, cap: nat, pick: map<Key, Value> -> Key)
    requires PicksMember(pick)
    ensures Run(m, a + b, cap, pick) == Run(Run(m, a, cap, pick), b, cap, pick)
  {
    if b == [] {
      assert a + b == a;
    } else {
      var front := b[..|b| - 1];
      assert (a + b)[..|a + b| - 1] == a + front;
      RunInParts(m, a, front, cap, pick);
    }
  }

  lemma {:induction false} BatchesRunTheLog(batches: seq<Log>, cap: nat, pick: map<Key, Value> -> Key)
    requires PicksMember(pick)
    ensures Applied(batches, cap, pick) == Run(map[], CommandsOf(Joined(batches)), cap, pick)
  {
    if batches != [] {
      var n := |batches| - 1;
      BatchesRunTheLog(batches[..n], cap, pick);
      RunInParts(map[], CommandsOf(Joined(batches[..n])), CommandsOf(batches[n]), cap, pick);
      assert CommandsOf(Joined(batches)) == CommandsOf(Joined(batches[..n])) + CommandsOf(batches[n]);
    }
  }

  /**
   * However the log was cut into single-term batches, the label has the index of the batch's last entry if and only if
   * no exchange of the batch fails; and then it is the log's position there and names the state of the snapshot.
   */
  lemma LabelsNameStates(log: Log, batches: seq<Log>, cap: nat, pick: map<Key, Value> -> Key)
    requires PicksMember(pick) && batches != [] && Joined(batches) <= log
    requires batches[|batches| - 1] != [] && AllOfTerm(batches[|batches| - 1], batches[|batches| - 1][0].term)
    ensures var anchor := AnchorOf(batches, cap, pick);
            && (anchor.index == |Joined(batches)| <==> NoneFails(batches, cap, pick))
            && (NoneFails(batches, cap, pick) ==>
                  && anchor == CursorAt(log, anchor.index)
                  && Applied(batches, cap, pick) == Run(map[], CommandsOf(log[..anchor.index]), cap, pick))
  {
    var n := |batches| - 1;
    var joined := Joined(batches);
    LabelExactCondition(Applied(batches[..n], cap, pick), CommandsOf(batches[n]), cap, pick);
    BatchesRunTheLog(batches, cap, pick);
    assert log[..|joined|] == joined;
    assert joined[|joined| - 1] == batches[n][|batches[n]| - 1];
  }

  // ---------------------------------------------------------------- serving requests

  /** The requests a batch asks this node to serve. */
  function ToServe(commands: seq<Command>, local: PeerId, expired: SnapshotRequest -> bool): seq<SnapshotRequest> {
    if commands == [] then []
    else
      var c := commands[|commands| - 1];
      ToServe(commands[..|commands| - 1], local, expired)
      + if c.TakeSnapshot? && c.request.requestedBy != local && !expired(c.request) then [c.request] else []
  }

  /** A batch is asked to serve exactly the live requests of other peers in it. */
  lemma {:induction false} ServesLiveRequests(commands: seq<Command>, local: PeerId, expired: SnapshotRequest -> bool, r: SnapshotRequest)
    ensures r in ToServe(commands, local, expired) <==> TakeSnapshot(r) in commands && r.requestedBy != local && !expired(r)
  {
    if commands != [] {
      var n := |commands| - 1;
      ServesLiveRequests(commands[..n], local, expired, r);
      assert TakeSnapshot(r) in commands <==> TakeSnapshot(r) in commands[..n] || commands[n] == TakeSnapshot(r);
    }
  }

  datatype Served = Served(requests: seq<SnapshotRequest>, position: Cursor, snapshot: Indexes)

  // ---------------------------------------------------------------- the state machine

  lemma LowestBucket(d: Indexes, p: Priority)
    requires Agree(d) && d.byKey.Keys != {}
    ensures p == Lowest(d.byKey) ==> p in d.byPriority && IsLowest(d.byPriority.Keys, p)
    ensures p in d.byPriority && IsLowest(d.byPriority.Keys, p) ==> p == Lowest(d.byKey) && d.byPriority[p] == Bucket(d.byKey, p)
  {
    AgreementIsGrouping(d);
    assert d.byPriority.Keys == Priorities(d.byKey);
    assert Lowest(d.byKey) in d.byPriority;
  }

  class DepqStateMachine {
    const cap: nat
    const localId: PeerId
    const pick: map<Key, Value> -> Key
    var data: Indexes

    ghost predicate Valid()
      reads this
    {
      Agree(data) && PicksMember(pick)
    }

    constructor (cap: nat, localId: PeerId, pick: map<Key, Value> -> Key)
      requires PicksMember(pick)
      ensures Valid() && data.byKey == map[] && this.cap == cap && this.localId == localId && this.pick == pick
    {
      this.cap, this.localId, this.pick := cap, localId, pick;
      data := Indexes(map[], map[]);
    }

    /** Removes an entry by key from both indexes. */
    method ApplyRemove(key: Key)
      requires Valid()
      modifies this`data
      ensures Valid() && data.byKey == old(data.byKey) - {key}
    {
      AgreementIsGrouping(data);
      if key in data.byKey {
        var p := data.byKey[key].0;
        UnfilingKey(data.byKey, key);
        var rest, groups := data.byKey - {key}, data.byPriority;
        if p in groups {
          var bucket := groups[p] - {key};
          groups := if bucket.Keys == {} then groups - {p} else groups[p := bucket];
        }
        data := Indexes(rest, groups);
        AgreementIsGrouping(data);
      } else {
        assert data.byKey - {key} == data.byKey;
      }
    }

    /** Moves an entry to its priority in both indexes. */
    method File(priority: Priority, key: Key, value: Value)
      requires Valid()
      modifies this`data
      ensures Valid() && data.byKey == old(data.byKey)[key := (priority, value)]
    {
      ghost var m := data.byKey;
      AgreementIsGrouping(data);
      var groups := data.byPriority;
      if key in data.byKey {
        UnfilingKey(m, key);
        var p := data.byKey[key].0;
        if p in groups {
          var bucket := groups[p] - {key};
          groups := if bucket.Keys == {} then groups - {p} else groups[p := bucket];
        }
      } else {
        assert m - {key} == m;
      }
      assert groups == Grouped(m - {key});
      FilingNewKey(m - {key}, priority, key, value);
      assert (m - {key})[key := (priority, value)] == m[key := (priority, value)];
      var bucket := if priority in groups then groups[priority] else map[];
      data := Indexes(data.byKey[key := (priority, value)], groups[priority := bucket[key := value]]);
      AgreementIsGrouping(data);
    }

    /** The first key of the lowest-priority bucket. */
    method FirstOfLowest() returns (key: Key)
      requires Valid() && data.byKey.Keys != {}
      ensures key == Victim(data.byKey, pick)
    {
      LowestBucket(data, Lowest(data.byKey));
      var minPriority :| minPriority in data.byPriority && IsLowest(data.byPriority.Keys, minPriority);
      LowestBucket(data, minPriority);
      key := pick(data.byPriority[minPriority]);
    }

    /** The loop that evicts lowest-priority entries while over capacity; it ends because each round removes one. */
    method Evict()
      requires Valid()
      modifies this`data
      ensures Valid() && data.byKey == Fit(old(data.byKey), cap, pick)
    {
      while |data.byKey.Keys| > cap
        invariant Valid()
        invariant Fit(data.byKey, cap, pick) == Fit(old(data.byKey), cap, pick)
        decreases data.byKey.Keys
      {
        var evictKey := FirstOfLowest();
        ApplyRemove(evictKey);
      }
    }

    method ApplyInsert(item: Item)
      requires Valid()
      modifies this`data
      ensures Valid() && data.byKey == Put(old(data.byKey), item, cap, pick)
    {
      File(item.priority, item.key, item.value);
      Evict();
    }

    method ApplyExtend(entries: seq<Item>)
      requires Valid()
      modifies this`data
      ensures Valid() && data.byKey == PutAll(old(data.byKey), entries, cap, pick)
    {
      for i := 0 to |entries|
        invariant Valid() && data.byKey == PutAll(old(data.byKey), entries[..i], cap, pick)
      {
        ApplyInsert(entries[i]);
        assert entries[..i + 1][..i] == entries[..i];
      }
      assert entries[..|entries|] == entries;
    }

    method ApplyRemoveKeys(keys: seq<Key>)
      requires Valid()
      modifies this`data
      ensures Valid() && data.byKey == old(data.byKey) - Members(keys)
    {
      assert old(data.byKey) - {} == old(data.byKey);
      for i := 0 to |keys|
        invariant Valid() && data.byKey == old(data.byKey) - Members(keys[..i])
      {
        ApplyRemove(keys[i]);
        assert Members(keys[..i + 1]) == Members(keys[..i]) + {keys[i]};
      }
      assert keys[..|keys|] == keys;
    }

    /** Collects the keys whose priority is in range, then removes them one by one. */
    method ApplyRemoveRange(start: Bound, end: Bound)
      requires Valid()
      modifies this`data
      ensures Valid() && data.byKey == map k | k in old(data.byKey) && !InRange(start, end, old(data.byKey)[k].0) :: old(data.byKey)[k]
    {
      var m := data.byKey;
      var keysToRemove := set k | k in m && InRange(start, end, m[k].0);
      ghost var removed: set<Key> := {};
      ghost var all := keysToRemove;
      assert m - {} == m;
      while keysToRemove != {}
        invariant Valid() && data.byKey == m - removed && removed + keysToRemove == all
        decreases keysToRemove
      {
        var key :| key in keysToRemove;
        ApplyRemove(key);
        keysToRemove, removed := keysToRemove - {key}, removed + {key};
      }
    }

    /** One command of a batch; a compare-exchange that fails leaves the batch counter behind. */
    method ApplyOne(c: Command) returns (counted: bool)
      requires Valid()
      modifies this`data
      ensures Valid() && data.byKey == Apply(old(data.byKey), c, cap, pick)
      ensures counted == !FailsExchange(old(data.byKey), c)
      ensures |old(data.byKey).Keys| <= cap ==> Leaves(old(data.byKey), c, cap, data.byKey)
    {
      if |data.byKey.Keys| <= cap {
        CommandsLeave(data.byKey, c, cap, pick);
      }
      counted := true;
      match c
      case Clear => data := Indexes(map[], map[]);
      case Insert(item) => ApplyInsert(item);
      case CompareExchangeValue(key, expected, replacement) =>
        if key in data.byKey {
          if data.byKey[key].1 != expected {
            counted := false;
          } else if replacement.Some? {
            ApplyInsert(Item(data.byKey[key].0, key, replacement.value));
          } else {
            ApplyRemove(key);
          }
        }
      case Extend(entries) => ApplyExtend(entries);
      case UpdatePriority(key, priority) =>
        if key in data.byKey {
          ApplyInsert(Item(priority, key, data.byKey[key].1));
        }
      case UpdateValue(key, value) =>
        if key in data.byKey {
          ApplyInsert(Item(data.byKey[key].0, key, value));
        }
      case RemoveKeys(keys) => ApplyRemoveKeys(keys);
      case RemoveRange(start, end) => ApplyRemoveRange(start, end);
      case TakeSnapshot(_) =>
    }

    /** Both indexes follow the plain map through every command; the snapshot is labelled with the counted commands. */
    method ApplyBatch(commands: seq<Command>, term: Term, committed: Index, expired: SnapshotRequest -> bool)
      returns (served: Option<Served>)
      requires Valid()
      modifies this`data
      ensures Valid() && data.byKey == Run(old(data.byKey), commands, cap, pick)
      ensures var requests := ToServe(commands, localId, expired);
              var position := Cursor(term, committed + Counted(old(data.byKey), commands, cap, pick));
              served == if requests == [] then None else Some(Served(requests, position, data))
    {
      var commandsLen := 0;
      var syncRequests := [];
      for i := 0 to |commands|
        invariant Valid() && data.byKey == Run(old(data.byKey), commands[..i], cap, pick)
        invariant commandsLen == Counted(old(data.byKey), commands[..i], cap, pick)
        invariant syncRequests == ToServe(commands[..i], localId, expired)
      {
        assert commands[..i + 1][..i] == commands[..i];
        var c := commands[i];
        var counted := ApplyOne(c);
        if c.TakeSnapshot? && c.request.requestedBy != localId && !expired(c.request) {
          syncRequests := syncRequests + [c.request];
        }
        if counted {
          commandsLen := commandsLen + 1;
        }
      }
      assert commands[..|commands|] == commands;
      served := if syncRequests == [] then None else Some(Served(syncRequests, Cursor(term, committed + commandsLen), data));
    }
  }

  // ---------------------------------------------------------------- snapshot transfer

  const EMPTY: Indexes := Indexes(map[], map[])

  /** What appending items to a snapshot makes of it: unlike an insert, it never unfiles a key. */
  function Appended(d: Indexes, items: seq<Item>): Indexes {
    if items == [] then d
    else
      var before, e := Appended(d, items[..|items| - 1]), items[|items| - 1];
      Indexes(before.byKey[e.key := (e.priority, e.value)], WithFiled(before.byPriority, e.priority, e.key, e.value))
  }

  method Append(d: Indexes, items: seq<Item>) returns (r: Indexes)
    ensures r == Appended(d, items)
  {
    r := d;
    for i := 0 to |items|
      invariant r == Appended(d, items[..i])
    {
      assert items[..i + 1][..i] == items[..i];
      var e := items[i];
      var bucket := if e.priority in r.byPriority then r.byPriority[e.priority] else map[];
      r := Indexes(r.byKey[e.key := (e.priority, e.value)], r.byPriority[e.priority := bucket[e.key := e.value]]);
    }
    assert items[..|items|] == items;
  }

  /** No key comes with two different priorities. */
  ghost predicate OnePriorityPerKey(items: seq<Item>) {
    forall i, j :: 0 <= i < j < |items| && items[i].key == items[j].key ==> items[i].priority == items[j].priority
  }

  lemma FilingOverwrites(g: Buckets, p: Priority, k: Key, v: Value, v': Value)
    ensures WithFiled(WithFiled(g, p, k, v), p, k, v') == WithFiled(g, p, k, v')
  {
    var bucket := if p in g then g[p] else map[];
    assert bucket[k := v][k := v'] == bucket[k := v'];
  }

  lemma FilingAgain(m: Contents, k: Key, v: Value)
    requires k in m
    ensures WithFiled(Grouped(m), m[k].0, k, v) == Grouped(m[k := (m[k].0, v)])
  {
    var rest, p := m - {k}, m[k].0;
    FilingNewKey(rest, p, k, m[k].1);
    FilingNewKey(rest, p, k, v);
    assert rest[k := m[k]] == m && rest[k := (p, v)] == m[k := (p, v)];
    FilingOverwrites(Grouped(rest), p, k, m[k].1, v);
  }

  lemma {:induction false} AppendedKey(items: seq<Item>, k: Key)
    ensures var m := Appended(EMPTY, items).byKey;
            k in m ==> exists i :: 0 <= i < |items| && items[i].key == k && m[k] == (items[i].priority, items[i].value)
  {
    if items != [] {
      var n := |items| - 1;
      if items[n].key != k {
        AppendedKey(items[..n], k);
      }
    }
  }

  lemma FilingAgrees(m: Contents, e: Item)
    requires e.key in m ==> m[e.key].0 == e.priority
    ensures WithFiled(Grouped(m), e.priority, e.key, e.value) == Grouped(m[e.key := (e.priority, e.value)])
  {
    if e.key in m {
      FilingAgain(m, e.key, e.value);
    } else {
      FilingNewKey(m, e.priority, e.key, e.value);
    }
  }

  lemma SamePriorityBefore(items: seq<Item>)
    requires items != [] && OnePriorityPerKey(items)
    ensures var m, e := Appended(EMPTY, items[..|items| - 1]).byKey, items[|items| - 1];
            e.key in m ==> m[e.key].0 == e.priority
  {
    var n := |items| - 1;
    var m, e := Appended(EMPTY, items[..n]).byKey, items[n];
    AppendedKey(items[..n], e.key);
    if e.key in m {
      var i :| 0 <= i < n && items[..n][i].key == e.key && m[e.key] == (items[..n][i].priority, items[..n][i].value);
      assert items[i].key == items[n].key;
    }
  }

  lemma {:induction false} AppendingAgrees(items: seq<Item>)
    requires OnePriorityPerKey(items)
    ensures Agree(Appended(EMPTY, items))
  {
    AgreementIsGrouping(Appended(EMPTY, items));
    if items == [] {
      assert Grouped(map[]) == map[];
    } else {
      var n := |items| - 1;
      var before := Appended(EMPTY, items[..n]);
      AppendingAgrees(items[..n]);
      AgreementIsGrouping(before);
      SamePriorityBefore(items);
      FilingAgrees(before.byKey, items[n]);
    }
  }

  lemma {:induction false} StaysFiled(items: seq<Item>, i: nat)
    requires i < |items|
    ensures var g := Appended(EMPTY, items).byPriority;
            items[i].priority in g && items[i].key in g[items[i].priority]
  {
    var n := |items| - 1;
    if i < n {
      StaysFiled(items[..n], i);
    }
  }

  /** Appending rebuilds agreeing indexes exactly when no key comes with two priorities. */
  lemma AppendExactCondition(items: seq<Item>)
    ensures Agree(Appended(EMPTY, items)) <==> OnePriorityPerKey(items)
  {
    var d := Appended(EMPTY, items);
    if Agree(d) {
      forall i, j | 0 <= i < j < |items| && items[i].key == items[j].key
        ensures items[i].priority == items[j].priority
      {
        StaysFiled(items, i);
        StaysFiled(items, j);
        var k := items[i].key;
        assert Filed(d, items[i].priority, k, d.byPriority[items[i].priority][k]);
        assert Filed(d, items[j].priority, k, d.byPriority[items[j].priority][k]);
      }
    }
    if OnePriorityPerKey(items) {
      AppendingAgrees(items);
    }
  }

  /** Two items of one key under two priorities, as no enumeration of one queue has them, leave the indexes at odds. */
  lemma TwoPrioritiesDisagree(key: Key, value: Value, p: Priority, q: Priority)
    requires p != q
    ensures !Agree(Appended(EMPTY, [Item(p, key, value), Item(q, key, value)]))
  {
    var items := [Item(p, key, value), Item(q, key, value)];
    assert items[0].key == items[1].key;
    AppendExactCondition(items);
  }

  /** The items are the entries of the key index, each once, in whatever order the map yields them. */
  ghost predicate Enumerates(items: seq<Item>, m: Contents) {
    && (forall i, j :: 0 <= i < j < |items| ==> items[i].key != items[j].key)
    && (forall i :: 0 <= i < |items| ==> items[i].key in m && m[items[i].key] == (items[i].priority, items[i].value))
    && (forall k :: k in m ==> exists i :: 0 <= i < |items| && items[i].key == k)
  }

  function Flatten(chunks: seq<seq<Item>>): seq<Item> {
    if chunks == [] then [] else Flatten(chunks[..|chunks| - 1]) + chunks[|chunks| - 1]
  }

  function AppendedChunks(d: Indexes, chunks: seq<seq<Item>>): Indexes {
    if chunks == [] then d else Appended(AppendedChunks(d, chunks[..|chunks| - 1]), chunks[|chunks| - 1])
  }

  lemma {:induction false} AppendInParts(d: Indexes, a: seq<Item>, b: seq<Item>)
    ensures Appended(d, a + b) == Appended(Appended(d, a), b)
  {
    if b == [] {
      assert a + b == a;
    } else {
      var front := b[..|b| - 1];
      assert (a + b)[..|a + b| - 1] == a + front;
      AppendInParts(d, a, front);
    }
  }

  lemma {:induction false} ChunkingIsIrrelevant(d: Indexes, chunks: seq<seq<Item>>)
    ensures AppendedChunks(d, chunks) == Appended(d, Flatten(chunks))
  {
    if chunks != [] {
      var n := |chunks| - 1;
      ChunkingIsIrrelevant(d, chunks[..n]);
      AppendInParts(d, Flatten(chunks[..n]), chunks[n]);
    }
  }

  lemma {:induction false} AppendedHolds(items: seq<Item>, i: nat)
    requires i < |items|
    ensures items[i].key in Appended(EMPTY, items).byKey
  {
    var n := |items| - 1;
    if i < n {
      AppendedHolds(items[..n], i);
    }
  }

  lemma EnumerationRebuildsKeys(items: seq<Item>, m: Contents)
    requires Enumerates(items, m)
    ensures Appended(EMPTY, items).byKey == m
  {
    var m' := Appended(EMPTY, items).byKey;
    forall k | k in m'
      ensures k in m && m[k] == m'[k]
    {
      AppendedKey(items, k);
    }
    forall k | k in m
      ensures k in m'
    {
      var i :| 0 <= i < |items| && items[i].key == k;
      AppendedHolds(items, i);
    }
  }

  /** Appending the enumeration of the key index to an empty snapshot, cut in any way, rebuilds both indexes. */
  lemma SnapshotRoundTrip(d: Indexes, chunks: seq<seq<Item>>)
    requires Agree(d) && Enumerates(Flatten(chunks), d.byKey)
    ensures AppendedChunks(EMPTY, chunks) == d
  {
    var items := Flatten(chunks);
    ChunkingIsIrrelevant(EMPTY, chunks);
    EnumerationRebuildsKeys(items, d.byKey);
    AppendingAgrees(items);
    AgreementIsGrouping(d);
    AgreementIsGrouping(Appended(EMPTY, items));
  }
}
