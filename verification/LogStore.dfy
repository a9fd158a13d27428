/** The in-memory log: the unpruned entries, the number of pruned ones, and the cursor at the boundary. */
module LogStore {
  import opened RaftTypes
  import FullLog

  datatype Indexed<+C> = Indexed(term: Term, index: Index, command: C)

  function TermOf(cursor: Option<Cursor>): Option<Term> {
    if cursor.Some? then Some(cursor.value.term) else None
  }

  /** Entries `lo` to `hi` of a log, with their indices. */
  function Slice<C>(log: seq<Entry<C>>, lo: Index, hi: Index): (r: seq<Indexed<C>>)
    requires 1 <= lo
    ensures |r| == Max(Min(hi, |log|) + 1 - lo, 0)
  {
    seq(Max(Min(hi, |log|) + 1 - lo, 0),
        i requires 0 <= i < Max(Min(hi, |log|) + 1 - lo, 0) => Indexed(log[lo - 1 + i].term, lo + i, log[lo - 1 + i].command))
  }

  /** `full` is the log as if nothing had been pruned; every answer of the store is an answer about `full`. */
  class InMemoryLogStore<C> {
    var entries: seq<Entry<C>>
    var offset: Index
    var lastPruned: Option<Cursor>
    ghost var full: seq<Entry<C>>

    ghost predicate Valid()
      reads this
    {
      && offset <= |full| && entries == full[offset..]
      && (0 < offset ==> lastPruned.Some?)
      && (lastPruned.Some? ==> lastPruned.value == FullLog.CursorAt(full, offset))
    }

    constructor ()
      ensures Valid() && full == [] && offset == 0
    {
      entries, offset, lastPruned, full := [], 0, None, [];
    }

    method Append(command: C, term: Term) returns (index: Index)
      requires Valid()
      modifies this
      ensures Valid() && offset == old(offset)
      ensures full == old(full) + [Entry(term, command)] && index == |full|
    {
      entries := entries + [Entry(term, command)];
      full := full + [Entry(term, command)];
      index := offset + |entries|;
    }

    function Get(index: Index): (r: Option<Entry<C>>)
      requires Valid()
      reads this
      ensures r == if offset < index <= |full| then Some(full[index - 1]) else None
    {
      if index == 0 || index <= offset then None
      else
        var physical := index - offset - 1;
        if physical < |entries| then Some(entries[physical]) else None
    }

    function Available(): (r: (Index, Index))
      requires Valid()
      reads this
      ensures r == (offset, |full|)
    {
      (offset, offset + |entries|)
    }

    /** The requested range, clamped to what is neither pruned nor beyond the end. */
    function GetRange(lo: Index, hi: Index): (r: seq<Indexed<C>>)
      requires Valid()
      reads this
      ensures r == Slice(full, Max(lo, offset + 1), hi)
    {
      var first := Max(lo, offset + 1);
      var last := Min(hi, offset + |entries|);
      if first > last then []
      else
        var physFirst, physLast := first - offset - 1, last - offset - 1;
        var picked := entries[physFirst..physLast + 1];
        var r := seq(|picked|, i requires 0 <= i < |picked| => Indexed(picked[i].term, first + i, picked[i].command));
        assert r == Slice(full, first, hi);
        r
    }

    method Truncate(at: Index)
      requires Valid()
      modifies this
      ensures Valid() && offset == old(offset)
      ensures full == FullLog.Truncated(old(full), offset, at)
    {
      full := FullLog.Truncated(full, offset, at);
      if at <= offset {
        entries := [];
      } else {
        var physical := at - offset - 1;
        if physical < |entries| {
          entries := entries[..physical];
        }
      }
    }

    function Last(): (r: Cursor)
      requires Valid()
      reads this
      ensures r == FullLog.Last(full)
    {
      if entries == [] then
        if lastPruned.Some? then lastPruned.value else Cursor(0, 0)
      else Cursor(entries[|entries| - 1].term, offset + |entries|)
    }

    function TermAt(index: Index): (r: Option<Term>)
      requires Valid()
      reads this
      ensures r == FullLog.TermAt(full, offset, index)
    {
      if index == 0 then Some(0)
      else if index == offset then
        TermOf(lastPruned)
      else
        var entry := Get(index);
        if entry.Some? then Some(entry.value.term) else None
    }

    method PrunePrefix(upTo: Index)
      requires Valid()
      modifies this
      ensures Valid() && full == old(full)
      ensures offset == Max(old(offset), Min(upTo, |full|))
    {
      if upTo <= offset {
        return;
      }
      var toDrain := Min(upTo - offset, |entries|);
      if toDrain > 0 {
        lastPruned := Some(Cursor(entries[toDrain - 1].term, offset + toDrain));
      }
      entries := entries[toDrain..];
      offset := offset + toDrain;
    }

    /** `prefix` is the log the cursor stands for: what the installed snapshot was taken from. */
    method ResetTo(cursor: Cursor, ghost prefix: seq<Entry<C>>)
      requires cursor == FullLog.Last(prefix)
      modifies this
      ensures Valid() && full == prefix && offset == cursor.index
    {
      entries := [];
      offset := cursor.index;
      lastPruned := Some(cursor);
      full := prefix;
    }
  }

  // ---------------------------------------------------------------- a log from which nothing is pruned

  datatype Operation<C> = Append(entry: Entry<C>) | Truncate(at: Index) | Prune(upTo: Index) | Reset(prefix: seq<Entry<C>>)

  /** What the store represents: the whole log and how much of it is pruned. */
  datatype Contents<C> = Contents(full: seq<Entry<C>>, base: Index)

  /** One operation on the store, as the methods' contracts state it. */
  function Stored<C>(c: Contents<C>, op: Operation<C>): Contents<C> {
    match op
    case Append(entry) => c.(full := c.full + [entry])
    case Truncate(at) => c.(full := FullLog.Truncated(c.full, c.base, at))
    case Prune(upTo) => c.(base := Max(c.base, Min(upTo, |c.full|)))
    case Reset(prefix) => Contents(prefix, |prefix|)
  }

  /** The same operation on a plain log that keeps everything. */
  function Kept<C>(log: seq<Entry<C>>, op: Operation<C>): seq<Entry<C>> {
    match op
    case Append(entry) => log + [entry]
    case Truncate(at) => log[..Min(Max(at - 1, 0), |log|)]
    case Prune(_) => log
    case Reset(prefix) => prefix
  }

  function StoredAll<C>(ops: seq<Operation<C>>): Contents<C> {
    if ops == [] then Contents([], 0) else Stored(StoredAll(ops[..|ops| - 1]), ops[|ops| - 1])
  }

  function KeptAll<C>(ops: seq<Operation<C>>): seq<Entry<C>> {
    if ops == [] then [] else Kept(KeptAll(ops[..|ops| - 1]), ops[|ops| - 1])
  }

  /** A truncation reaches only entries that are still stored. */
  predicate AboveBase<C>(c: Contents<C>, op: Operation<C>) {
    op.Truncate? ==> c.base < op.at || c.base == 0
  }

  /** Exactly which truncations a pruned log gets right. */
  lemma TruncationExactCondition<C>(c: Contents<C>, at: Index)
    requires c.base <= |c.full|
    ensures Stored(c, Truncate(at)).full == Kept(c.full, Truncate(at)) <==> AboveBase(c, Truncate(at))
  {
    if !AboveBase(c, Truncate(at)) {
      assert |Kept(c.full, Truncate(at))| < c.base == |Stored(c, Truncate(at)).full|;
    }
  }

  /** Pruning and truncating below the boundary leaves entries that an unpruned log would have dropped. */
  lemma TruncationBelowPruningDiffers<C>(a: Entry<C>, b: Entry<C>)
    ensures var ops := [Append(a), Append(b), Prune(2), Truncate(1)];
            StoredAll(ops).full == [a, b] && KeptAll(ops) == []
  {
    var one: seq<Operation<C>> := [Append(a)];
    var two, three := one + [Append(b)], one + [Append(b), Prune(2)];
    var ops := three + [Truncate(1)];
    assert ops[..3] == three && three[..2] == two && two[..1] == one && one[..0] == [];
    assert StoredAll(one) == Contents([a], 0) && KeptAll(one) == [a];
    assert StoredAll(two) == Contents([a, b], 0) && KeptAll(two) == [a, b];
    assert StoredAll(three) == Contents([a, b], 2) && KeptAll(three) == [a, b];
    assert ops == [Append(a), Append(b), Prune(2), Truncate(1)];
  }

  /**
   * A pruned log stands for an unpruned one: after any operations whose truncations stay above the pruned
   * prefix, the store represents the very log that keeps everything, so every read above the boundary,
   * the last cursor, the boundary term and the next index agree with it.
   */
  lemma {:induction false} PrunedRefinesUnpruned<C>(ops: seq<Operation<C>>)
    requires forall i :: 0 <= i < |ops| ==> AboveBase(StoredAll(ops[..i]), ops[i])
    ensures StoredAll(ops).full == KeptAll(ops) && StoredAll(ops).base <= |KeptAll(ops)|
  {
    if ops != [] {
      var front, last := ops[..|ops| - 1], ops[|ops| - 1];
      forall i | 0 <= i < |front|
        ensures AboveBase(StoredAll(front[..i]), front[i])
      {
        assert front[..i] == ops[..i];
      }
      PrunedRefinesUnpruned(front);
      assert AboveBase(StoredAll(front), last);
      if last.Truncate? {
        TruncationExactCondition(StoredAll(front), last.at);
      }
    }
  }

  // ---------------------------------------------------------------- the theorem on the object

  /** One operation on the store. */
  method Perform<C>(store: InMemoryLogStore<C>, op: Operation<C>)
    requires store.Valid()
    modifies store
    ensures store.Valid() && Contents(store.full, store.offset) == Stored(old(Contents(store.full, store.offset)), op)
  {
    match op
    case Append(entry) => var _ := store.Append(entry.command, entry.term);
    case Truncate(at) => store.Truncate(at);
    case Prune(upTo) => store.PrunePrefix(upTo);
    case Reset(prefix) => store.ResetTo(FullLog.Last(prefix), prefix);
  }

  /** A store that went through any operations with truncations above the pruned prefix stands for the log that keeps everything. */
  method PerformAll<C>(ops: seq<Operation<C>>) returns (store: InMemoryLogStore<C>)
    ensures fresh(store) && store.Valid() && Contents(store.full, store.offset) == StoredAll(ops)
    ensures (forall i :: 0 <= i < |ops| ==> AboveBase(StoredAll(ops[..i]), ops[i])) ==> store.full == KeptAll(ops)
  {
    store := new InMemoryLogStore();
    for i := 0 to |ops|
      invariant fresh(store) && store.Valid() && Contents(store.full, store.offset) == StoredAll(ops[..i])
    {
      assert ops[..i + 1][..i] == ops[..i];
      Perform(store, ops[i]);
    }
    assert ops[..|ops|] == ops;
    if forall i :: 0 <= i < |ops| ==> AboveBase(StoredAll(ops[..i]), ops[i]) {
      PrunedRefinesUnpruned(ops);
    }
  }
}
