/** The replicated map: its commands, the label a snapshot gets, and what a transferred snapshot rebuilds. */
module MapMachine {
  import opened RaftTypes
  import opened FullLog
  import opened LogBatches
  import opened SharedState
  import opened SnapshotProtocol

  type Key(==, !new)
  type Value(==, !new)
  type Data = map<Key, Value>

  datatype Item = Item(key: Key, value: Value)

  datatype Command =
    | Clear
    | Insert(item: Item)
    | CompareExchange(key: Key, expected: Option<Value>, replacement: Option<Value>)
    | RemoveMany(keys: seq<Key>)
    | Extend(entries: seq<Item>)
    | TakeSnapshot(request: SnapshotRequest)

  // ---------------------------------------------------------------- one command

  function Lookup(m: Data, key: Key): Option<Value> {
    if key in m then Some(m[key]) else None
  }

  function Store(m: Data, key: Key, value: Option<Value>): Data {
    if value.Some? then m[key := value.value] else m - {key}
  }

  /** Appending items to a map: a later item of a key replaces an earlier one. */
  function Appended(m: Data, items: seq<Item>): Data {
    if items == [] then m
    else Appended(m, items[..|items| - 1])[items[|items| - 1].key := items[|items| - 1].value]
  }

  function Members(keys: seq<Key>): set<Key> {
    set k | k in keys
  }

  function Apply(m: Data, c: Command): Data {
    match c
    case Clear => map[]
    case Insert(item) => m[item.key := item.value]
    case CompareExchange(key, expected, replacement) =>
      if Lookup(m, key) == expected then Store(m, key, replacement) else m
    case RemoveMany(keys) => m - Members(keys)
    case Extend(entries) => Appended(m, entries)
    case TakeSnapshot(_) => m
  }

  function Run(m: Data, commands: seq<Command>): Data {
    if commands == [] then m else Apply(Run(m, commands[..|commands| - 1]), commands[|commands| - 1])
  }

  /** The requests a batch asks this node to serve. */
  function ToServe(commands: seq<Command>, local: PeerId, expired: SnapshotRequest -> bool): seq<SnapshotRequest> {
    if commands == [] then []
    else
      var c := commands[|commands| - 1];
      ToServe(commands[..|commands| - 1], local, expired)
      + if c.TakeSnapshot? && c.request.requestedBy != local && !expired(c.request) then [c.request] else []
  }

  datatype Served = Served(requests: seq<SnapshotRequest>, position: Cursor, snapshot: Data)

  // ---------------------------------------------------------------- the state machine

  method Append(data: Data, items: seq<Item>) returns (m: Data)
    ensures m == Appended(data, items)
  {
    m := data;
    for i := 0 to |items|
      invariant m == Appended(data, items[..i])
    {
      assert items[..i + 1][..i] == items[..i];
      m := m[items[i].key := items[i].value];
    }
    assert items[..|items|] == items;
  }

  method RemoveAll(data: Data, keys: seq<Key>) returns (m: Data)
    ensures m == data - Members(keys)
  {
    m := data;
    for i := 0 to |keys|
      invariant m == data - Members(keys[..i])
    {
      assert Members(keys[..i + 1]) == Members(keys[..i]) + {keys[i]};
      m := m - {keys[i]};
    }
    assert keys[..|keys|] == keys;
  }

  class MapStateMachine {
    const localId: PeerId
    var data: Data

    constructor (localId: PeerId)
      ensures data == map[] && this.localId == localId
    {
      this.localId, data := localId, map[];
    }

    method ApplyOne(c: Command)
      modifies this`data
      ensures data == Apply(old(data), c)
      ensures forall k, v :: Writes(c, k, Lookup(old(data), k), v) ==> Lookup(data, k) == Some(v)
      ensures forall k :: Erases(c, k, Lookup(old(data), k)) ==> Lookup(data, k) == None
      ensures forall k :: !Touches(c, k, Lookup(old(data), k)) ==> Lookup(data, k) == Lookup(old(data), k)
    {
      CommandEffects(data, c);
      match c
      case Clear => data := map[];
      case Insert(item) => data := data[item.key := item.value];
      case CompareExchange(key, expected, replacement) =>
        if key in data && expected.Some? && data[key] == expected.value {
          if replacement.Some? {
            data := data[key := replacement.value];
          } else {
            data := data - {key};
          }
        } else if key !in data && expected.None? {
          if replacement.Some? {
            data := data[key := replacement.value];
          }
        }
      case RemoveMany(keys) => data := RemoveAll(data, keys);
      case Extend(entries) => data := Append(data, entries);
      case TakeSnapshot(_) =>
    }

    /** The snapshot served for a batch is the state after the whole batch, labelled with the batch's last index. */
    method ApplyBatch(commands: seq<Command>, term: Term, committed: Index, expired: SnapshotRequest -> bool)
      returns (served: Option<Served>)
      modifies this`data
      ensures data == Run(old(data), commands)
      ensures var requests := ToServe(commands, localId, expired);
              served == if requests == [] then None
                        else Some(Served(requests, Cursor(term, committed + |commands|), data))
    {
      var commandsLen := 0;
      var syncRequests := [];
      for i := 0 to |commands|
        invariant data == Run(old(data), commands[..i]) && commandsLen == i
        invariant syncRequests == ToServe(commands[..i], localId, expired)
      {
        assert commands[..i + 1][..i] == commands[..i];
        var c := commands[i];
        ApplyOne(c);
        if c.TakeSnapshot? && c.request.requestedBy != localId && !expired(c.request) {
          syncRequests := syncRequests + [c.request];
        }
        commandsLen := commandsLen + 1;
      }
      assert commands[..|commands|] == commands;
      served := if syncRequests == [] then None else Some(Served(syncRequests, Cursor(term, committed + commandsLen), data));
    }
  }

  // ---------------------------------------------------------------- the last writer wins

  /** Met with value `current` under `k`, the command leaves `v` there. */
  ghost predicate Writes(c: Command, k: Key, current: Option<Value>, v: Value) {
    match c
    case Insert(item) => item == Item(k, v)
    case CompareExchange(key, expected, replacement) => key == k && expected == current && replacement == Some(v)
    case Extend(entries) => exists i :: LastOf(entries, k, i) && entries[i].value == v
    case _ => false
  }

  /** Entry `i` is the last one of key `k`. */
  predicate LastOf(entries: seq<Item>, k: Key, i: int) {
    0 <= i < |entries| && entries[i].key == k && forall j :: i < j < |entries| ==> entries[j].key != k
  }

  /** Met with value `current` under `k`, the command leaves nothing there. */
  predicate Erases(c: Command, k: Key, current: Option<Value>) {
    match c
    case Clear => true
    case CompareExchange(key, expected, replacement) => key == k && expected == current && replacement.None?
    case RemoveMany(keys) => k in keys
    case _ => false
  }

  ghost predicate Touches(c: Command, k: Key, current: Option<Value>) {
    Erases(c, k, current) || exists v :: Writes(c, k, current, v)
  }

  ghost predicate Unnamed(entries: seq<Item>, k: Key) {
    forall i :: 0 <= i < |entries| ==> entries[i].key != k
  }

  /** The last entry of a key counts; a key no entry names is left alone. */
  lemma {:induction false} AppendedLast(m: Data, items: seq<Item>, k: Key)
    ensures || (Unnamed(items, k) && Lookup(Appended(m, items), k) == Lookup(m, k))
            || exists i :: LastOf(items, k, i) && Lookup(Appended(m, items), k) == Some(items[i].value)
  {
    if items != [] {
      var n := |items| - 1;
      AppendedLast(m, items[..n], k);
      if items[n].key == k {
        assert LastOf(items, k, n);
      } else if !Unnamed(items[..n], k) {
        var i :| LastOf(items[..n], k, i) && Lookup(Appended(m, items[..n]), k) == Some(items[i].value);
        assert LastOf(items, k, i);
      }
    }
  }

  lemma CommandEffect(m: Data, c: Command, k: Key)
    ensures forall v :: Writes(c, k, Lookup(m, k), v) ==> Lookup(Apply(m, c), k) == Some(v)
    ensures Erases(c, k, Lookup(m, k)) ==> Lookup(Apply(m, c), k) == None
    ensures !Touches(c, k, Lookup(m, k)) ==> Lookup(Apply(m, c), k) == Lookup(m, k)
  {
    match c
    case Insert(item) => assert item.key == k ==> Writes(c, k, Lookup(m, k), item.value);
    case CompareExchange(key, expected, replacement) =>
      assert key == k && expected == Lookup(m, k) && replacement.Some? ==> Writes(c, k, Lookup(m, k), replacement.value);
    case Extend(entries) =>
      AppendedLast(m, entries, k);
      if i :| LastOf(entries, k, i) {
        assert Writes(c, k, Lookup(m, k), entries[i].value);
      }
    case _ =>
  }

  lemma CommandEffects(m: Data, c: Command)
    ensures forall k, v :: Writes(c, k, Lookup(m, k), v) ==> Lookup(Apply(m, c), k) == Some(v)
    ensures forall k :: Erases(c, k, Lookup(m, k)) ==> Lookup(Apply(m, c), k) == None
    ensures forall k :: !Touches(c, k, Lookup(m, k)) ==> Lookup(Apply(m, c), k) == Lookup(m, k)
  {
    forall k: Key
      ensures forall v :: Writes(c, k, Lookup(m, k), v) ==> Lookup(Apply(m, c), k) == Some(v)
      ensures Erases(c, k, Lookup(m, k)) ==> Lookup(Apply(m, c), k) == None
      ensures !Touches(c, k, Lookup(m, k)) ==> Lookup(Apply(m, c), k) == Lookup(m, k)
    {
      CommandEffect(m, c, k);
    }
  }

  /** What is stored under `k` when command `i` is met. */
  function ValueAt(m: Data, commands: seq<Command>, k: Key, i: nat): Option<Value>
    requires i <= |commands|
  {
    Lookup(Run(m, commands[..i]), k)
  }

  ghost predicate TouchedAt(m: Data, commands: seq<Command>, k: Key, i: nat)
    requires i < |commands|
  {
    Touches(commands[i], k, ValueAt(m, commands, k, i))
  }

  /** No command from `i` up to `n` touches `k`. */
  ghost predicate Quiet(m: Data, commands: seq<Command>, k: Key, i: nat, n: nat)
    requires n <= |commands|
  {
    forall j :: i <= j < n ==> !TouchedAt(m, commands, k, j)
  }

  /** Command `i` is the last of the first `n` to touch `k`, and leaves it `left`. */
  ghost predicate LastTouch(m: Data, commands: seq<Command>, k: Key, i: nat, n: nat, left: Option<Value>)
    requires i < n <= |commands|
  {
    var current := ValueAt(m, commands, k, i);
    && Quiet(m, commands, k, i + 1, n)
    && if left.Some? then Writes(commands[i], k, current, left.value) else Erases(commands[i], k, current)
  }

  /** `now` is what the last of the first `n` commands to touch `k` left there, or the first value if none did. */
  ghost predicate LeftByLast(m: Data, commands: seq<Command>, k: Key, n: nat, now: Option<Value>)
    requires n <= |commands|
  {
    || (Quiet(m, commands, k, 0, n) && now == Lookup(m, k))
    || exists i :: 0 <= i < n && LastTouch(m, commands, k, i, n, now)
  }

  lemma TouchLeaves(m: Data, commands: seq<Command>, k: Key, n: nat)
    requires n < |commands|
    ensures if TouchedAt(m, commands, k, n) then LastTouch(m, commands, k, n, n + 1, ValueAt(m, commands, k, n + 1))
            else ValueAt(m, commands, k, n + 1) == ValueAt(m, commands, k, n)
  {
    assert commands[..n + 1][..n] == commands[..n];
    CommandEffect(Run(m, commands[..n]), commands[n], k);
  }

  lemma {:induction false} LeftByLastUpTo(m: Data, commands: seq<Command>, k: Key, n: nat)
    requires n <= |commands|
    ensures LeftByLast(m, commands, k, n, ValueAt(m, commands, k, n))
  {
    if n > 0 {
      var p := n - 1;
      var before := ValueAt(m, commands, k, p);
      LeftByLastUpTo(m, commands, k, p);
      TouchLeaves(m, commands, k, p);
      if !TouchedAt(m, commands, k, p) && exists i :: 0 <= i < p && LastTouch(m, commands, k, i, p, before) {
        var i :| 0 <= i < p && LastTouch(m, commands, k, i, p, before);
        assert LastTouch(m, commands, k, i, n, before);
      }
    }
  }

  /**
   * Whatever commands run on whatever map, a key holds what the last command that touched it left there, or its first
   * value if none did. An insertion, an extension and an exchange that finds what it expects write; clearing, removal
   * and such an exchange to nothing erase.
   */
  lemma LastWriterWins(m: Data, commands: seq<Command>, k: Key)
    ensures LeftByLast(m, commands, k, |commands|, Lookup(Run(m, commands), k))
  {
    assert commands[..|commands|] == commands;
    LeftByLastUpTo(m, commands, k, |commands|);
  }

  /** A batch is asked to serve exactly the live requests of other peers in it. */
  lemma {:induction false} ServesLiveRequests(commands: seq<Command>, local: PeerId, expired: SnapshotRequest -> bool, r: SnapshotRequest)
    ensures r in ToServe(commands, local, expired) <==> TakeSnapshot(r) in commands && r.requestedBy != local && !expired(r)
  {
    if commands != [] {
      var n := |commands| - 1;
      ServesLiveRequests(commands[..n], local, expired, r);
      assert TakeSnapshot(r) in commands <==> TakeSnapshot(r) in commands[..n] || commands[n] == TakeSnapshot(r);
    }
  }

  // ---------------------------------------------------------------- labels name states

  /** The machine as the replicated log drives it, entry by entry. */
  function Step(m: Data, c: Command, term: Term): Data {
    Apply(m, c)
  }

  ghost function StateOf(log: seq<Entry<Command>>): Data {
    Replay(Step, map[], log)
  }

  /** The state of a provider that applied its log batch by batch. */
  function Applied(batches: seq<seq<Entry<Command>>>): Data {
    if batches == [] then map[] else Run(Applied(batches[..|batches| - 1]), CommandsOf(batches[|batches| - 1]))
  }

  /** The position a provider gives a snapshot taken with its last batch. */
  function AnchorOf(batches: seq<seq<Entry<Command>>>): Cursor
    requires batches != [] && batches[|batches| - 1] != []
  {
    var n := |batches| - 1;
    Cursor(batches[n][0].term, |Joined(batches[..n])| + |batches[n]|)
  }

  lemma {:induction false} RunIsReplay(m: Data, batch: seq<Entry<Command>>)
    ensures Run(m, CommandsOf(batch)) == Replay(Step, m, batch)
  {
    if batch != [] {
      var n := |batch| - 1;
      assert CommandsOf(batch)[..n] == CommandsOf(batch[..n]);
      RunIsReplay(m, batch[..n]);
    }
  }

  lemma {:induction false} BatchesReplayTheLog(batches: seq<seq<Entry<Command>>>)
    ensures Applied(batches) == StateOf(Joined(batches))
  {
    if batches != [] {
      var n := |batches| - 1;
      BatchesReplayTheLog(batches[..n]);
      RunIsReplay(Applied(batches[..n]), batches[n]);
      ReplayConcat(Step, map[], Joined(batches[..n]), batches[n]);
    }
  }

  /**
   * However a provider's log was cut into single-term batches, the position it gives a snapshot is the position of
   * the log's entry there, and the snapshot is the state after replaying the log up to it.
   */
  lemma LabelsNameStates(log: seq<Entry<Command>>, batches: seq<seq<Entry<Command>>>)
    requires batches != [] && Joined(batches) <= log
    requires batches[|batches| - 1] != [] && AllOfTerm(batches[|batches| - 1], batches[|batches| - 1][0].term)
    ensures var anchor := AnchorOf(batches);
            && anchor.index <= |log| && anchor == CursorAt(log, anchor.index)
            && Applied(batches) == StateOf(log[..anchor.index])
  {
    var n := |batches| - 1;
    var joined := Joined(batches);
    BatchesReplayTheLog(batches);
    assert log[..|joined|] == joined;
    assert joined[|joined| - 1] == batches[n][|batches[n]| - 1];
  }

  // ---------------------------------------------------------------- snapshot transfer

  /** The items are the entries of the map, each key once. */
  ghost predicate Enumerates(items: seq<Item>, m: Data) {
    && (forall i, j :: 0 <= i < j < |items| ==> items[i].key != items[j].key)
    && (forall i :: 0 <= i < |items| ==> items[i].key in m && m[items[i].key] == items[i].value)
    && (forall k :: k in m ==> exists i :: 0 <= i < |items| && items[i].key == k)
  }

  lemma {:induction false} AppendedKey(items: seq<Item>, k: Key)
    ensures var m := Appended(map[], items);
            k in m ==> exists i :: 0 <= i < |items| && items[i].key == k && m[k] == items[i].value
  {
    if items != [] && items[|items| - 1].key != k {
      AppendedKey(items[..|items| - 1], k);
    }
  }

  lemma {:induction false} AppendedHolds(items: seq<Item>, i: nat)
    requires i < |items|
    ensures items[i].key in Appended(map[], items)
  {
    if i < |items| - 1 {
      AppendedHolds(items[..|items| - 1], i);
    }
  }

  /** Appending the enumeration of a map to the empty map gives the map back. */
  lemma EnumerationRebuilds(items: seq<Item>, m: Data)
    requires Enumerates(items, m)
    ensures Appended(map[], items) == m
  {
    var m' := Appended(map[], items);
    forall k | k in m'
      ensures k in m && m[k] == m'[k]
    {
      AppendedKey(items, k);
    }
    forall k | k in m
      ensures k in m'
    {
      var i :| 0 <= i < |items| && items[i].key == k;
      AppendedHolds(items, i);
    }
  }

  /** Appending in chunks is appending everything at once. */
  lemma {:induction false} AppendInParts(m: Data, a: seq<Item>, b: seq<Item>)
    ensures Appended(m, a + b) == Appended(Appended(m, a), b)
  {
    if b == [] {
      assert a + b == a;
    } else {
      var front := b[..|b| - 1];
      assert (a + b)[..|a + b| - 1] == a + front;
      AppendInParts(m, a, front);
    }
  }
}
