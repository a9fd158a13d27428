/**
 * How a follower merges an AppendEntries batch into its log. The conflict check looks at the first
 * entry of the batch only, and a missing entry is pushed at the end of the log whatever index it was
 * sent for; this module proves when that puts every entry where it belongs.
 */
module AppendPlacement {
  import opened RaftTypes
  import opened FullLog

  /** The follower's log and the leader's agree at the position the batch follows. */
  predicate Consistent<C>(log: seq<Entry<C>>, base: Index, prev: Cursor) {
    TermAt(log, base, prev.index) == Some(prev.term)
  }

  /** Does the first entry of the batch clash with the local entry at its index? */
  predicate Conflicts<C>(log: seq<Entry<C>>, base: Index, prev: Cursor, entries: seq<Entry<C>>) {
    entries != [] &&
    var existing := TermAt(log, base, prev.index + 1);
    existing.Some? && existing.value != entries[0].term
  }

  /** The log after the consistency check and the truncation it may cause. */
  function Reconciled<C>(log: seq<Entry<C>>, base: Index, prev: Cursor, entries: seq<Entry<C>>): (r: seq<Entry<C>>)
    ensures Min(base, |log|) <= |r| && r <= log
  {
    if Consistent(log, base, prev) then
      if Conflicts(log, base, prev, entries) then Truncated(log, base, prev.index + 1) else log
    else if TermAt(log, base, prev.index).Some? then Truncated(log, base, prev.index)
    else log
  }

  /** Pushes an entry meant for index `at`, unless its term is already there. */
  function Push<C>(log: seq<Entry<C>>, base: Index, at: Index, entry: Entry<C>): seq<Entry<C>> {
    if TermAt(log, base, at) == Some(entry.term) then log else log + [entry]
  }

  /** Walks the batch; entry `i` is meant for index `start + i` and is skipped when its term is already there. */
  function AppendMissing<C>(log: seq<Entry<C>>, base: Index, start: Index, entries: seq<Entry<C>>): (r: seq<Entry<C>>)
    ensures log <= r
    decreases |entries|
  {
    if entries == [] then log
    else AppendMissing(Push(log, base, start, entries[0]), base, start + 1, entries[1..])
  }

  function Accepted<C>(log: seq<Entry<C>>, base: Index, prev: Cursor, entries: seq<Entry<C>>): seq<Entry<C>> {
    AppendMissing(Reconciled(log, base, prev, entries), base, prev.index + 1, entries)
  }

  /** Every entry the walk pushes gets exactly the index it was sent for. */
  ghost predicate Lands<C>(log: seq<Entry<C>>, base: Index, start: Index, entries: seq<Entry<C>>)
    decreases |entries|
  {
    entries == [] ||
    if TermAt(log, base, start) == Some(entries[0].term) then Lands(log, base, start + 1, entries[1..])
    else |log| + 1 == start && Lands(log + [entries[0]], base, start + 1, entries[1..])
  }

  /** What merging a batch should mean: the batch written over the log from `prev` on. */
  function Overlay<C>(log: seq<Entry<C>>, prev: Index, entries: seq<Entry<C>>): seq<Entry<C>>
    requires prev <= |log|
  {
    if entries == [] then log
    else if prev < |log| && log[prev].term == entries[0].term then
      log + entries[Min(|entries|, |log| - prev)..]
    else log[..prev] + entries
  }

  /** Laying a slice of `whole` over a log that follows `whole` up to the slice, or throughout, keeps it following. */
  lemma OverlayOfSlice<C>(log: seq<Entry<C>>, prev: Index, entries: seq<Entry<C>>, whole: seq<Entry<C>>)
    requires prev <= |log| && entries != [] && prev + |entries| <= |whole| && entries == whole[prev..prev + |entries|]
    requires log[..prev] == whole[..prev]
    requires prev < |log| && log[prev].term == entries[0].term ==> log <= whole
    ensures Overlay(log, prev, entries) <= whole
  {
    if prev < |log| && log[prev].term == entries[0].term {
      var k := Min(|entries|, |log| - prev);
      assert entries[k..] == whole[prev + k..prev + |entries|];
      if |log| < prev + |entries| {
        assert log + entries[k..] == whole[..prev + |entries|];
      } else {
        assert log + entries[k..] == log;
      }
    } else {
      assert log[..prev] + entries == whole[..prev + |entries|];
    }
  }

  /** The walk over a log whose entries from `start` on all carry the batch's term. */
  lemma {:induction false} WalkFillsTheEnd<C>(log: seq<Entry<C>>, base: Index, start: Index, entries: seq<Entry<C>>, t: Term)
    requires base < start <= |log| + 1
    requires AllOfTerm(entries, t)
    requires forall i :: start - 1 <= i < |log| ==> log[i].term == t
    ensures AppendMissing(log, base, start, entries) == log + entries[Min(|entries|, |log| + 1 - start)..]
    ensures Lands(log, base, start, entries)
    decreases |entries|
  {
    if entries != [] {
      var rest := entries[1..];
      if start <= |log| {
        assert Push(log, base, start, entries[0]) == log;
        WalkFillsTheEnd(log, base, start + 1, rest, t);
        assert rest[Min(|rest|, |log| - start)..] == entries[Min(|entries|, |log| + 1 - start)..];
      } else {
        var pushed := log + [entries[0]];
        assert Push(log, base, start, entries[0]) == pushed;
        WalkFillsTheEnd(pushed, base, start + 1, rest, t);
        assert pushed + rest == log + entries && rest[0..] == rest && entries[0..] == entries;
      }
    }
  }

  /**
   * A batch of one term that bounds a log of nondecreasing terms, sent for a position at or above the
   * pruning point, is merged as if it were written over the log.
   */
  lemma AcceptedIsOverlay<C>(log: seq<Entry<C>>, base: Index, prev: Cursor, entries: seq<Entry<C>>, t: Term)
    requires base <= |log| && base <= prev.index
    requires NondecreasingTerms(log) && TermsBoundedBy(log, t) && AllOfTerm(entries, t)
    requires Consistent(log, base, prev)
    ensures prev.index <= |log|
    ensures Accepted(log, base, prev, entries) == Overlay(log, prev.index, entries)
    ensures Lands(Reconciled(log, base, prev, entries), base, prev.index + 1, entries)
  {
    var kept := Reconciled(log, base, prev, entries);
    if entries != [] {
      WalkFillsTheEnd(kept, base, prev.index + 1, entries, t);
      if prev.index < |log| && log[prev.index].term != t {
        assert kept == log[..prev.index];
        assert entries[0..] == entries;
      } else {
        assert kept == log;
        assert log == log[..prev.index] || prev.index < |log|;
      }
    }
  }

  /** `r` is `log` with the batch in its place: what came before is kept, and only entries of the batch's term follow. */
  ghost predicate Placed<C>(log: seq<Entry<C>>, prev: Index, entries: seq<Entry<C>>, t: Term, r: seq<Entry<C>>) {
    && prev <= |log| && prev + |entries| <= |r|
    && r[..prev] == log[..prev]
    && (forall i :: prev <= i < prev + |entries| ==>
          r[i] == entries[i - prev] || (i < |log| && r[i] == log[i] && log[i].term == t))
    && (entries != [] ==> forall i :: prev + |entries| <= i < |r| ==> r[i].term == t)
    && NondecreasingTerms(r) && TermsBoundedBy(r, t)
  }

  /** A log followed by entries of a term that bounds it. */
  lemma ExtendedStaysOrdered<C>(log: seq<Entry<C>>, entries: seq<Entry<C>>, t: Term)
    requires NondecreasingTerms(log) && TermsBoundedBy(log, t) && AllOfTerm(entries, t)
    ensures NondecreasingTerms(log + entries) && TermsBoundedBy(log + entries, t)
  {
    var r := log + entries;
    assert forall i :: 0 <= i < |log| ==> r[i] == log[i];
    assert forall i :: |log| <= i < |r| ==> r[i].term == t;
  }

  lemma OverlayIsPlaced<C>(log: seq<Entry<C>>, prev: Index, entries: seq<Entry<C>>, t: Term)
    requires prev <= |log|
    requires NondecreasingTerms(log) && TermsBoundedBy(log, t) && AllOfTerm(entries, t)
    ensures Placed(log, prev, entries, t, Overlay(log, prev, entries))
  {
    if entries != [] {
      if prev < |log| && log[prev].term == t {
        ExtendIsPlaced(log, prev, entries, t);
      } else {
        ExtendedStaysOrdered(log[..prev], entries, t);
      }
    }
  }

  lemma ExtendIsPlaced<C>(log: seq<Entry<C>>, prev: Index, entries: seq<Entry<C>>, t: Term)
    requires prev < |log| && log[prev].term == t && entries != []
    requires NondecreasingTerms(log) && TermsBoundedBy(log, t) && AllOfTerm(entries, t)
    ensures Placed(log, prev, entries, t, log + entries[Min(|entries|, |log| - prev)..])
  {
    var k := Min(|entries|, |log| - prev);
    var rest := entries[k..];
    var r := log + rest;
    ExtendedStaysOrdered(log, rest, t);
    assert forall i :: prev <= i < |log| ==> r[i] == log[i] && log[i].term == t;
    assert forall i :: |log| <= i < |r| ==> r[i] == rest[i - |log|];
    assert r[..prev] == log[..prev];
  }

  lemma OverlayTwice<C>(log: seq<Entry<C>>, prev: Index, entries: seq<Entry<C>>, t: Term)
    requires prev <= |log| && AllOfTerm(entries, t)
    ensures prev <= |Overlay(log, prev, entries)|
    ensures Overlay(Overlay(log, prev, entries), prev, entries) == Overlay(log, prev, entries)
  {
    if entries != [] {
      var r := Overlay(log, prev, entries);
      assert r[prev].term == t && |entries| <= |r| - prev;
      assert entries[|entries|..] == [];
    }
  }

  lemma PlacedStaysConsistent<C>(log: seq<Entry<C>>, base: Index, prev: Cursor, entries: seq<Entry<C>>, t: Term, r: seq<Entry<C>>)
    requires base <= prev.index && Consistent(log, base, prev) && Placed(log, prev.index, entries, t, r)
    ensures Consistent(r, base, prev)
  {
    if prev.index > 0 {
      assert r[prev.index - 1] == r[..prev.index][prev.index - 1] == log[..prev.index][prev.index - 1];
    }
  }

  /**
   * A batch of one term that bounds a log of nondecreasing terms, sent at or above the pruning point,
   * lands in its place, keeps what came before, and changes nothing when it is delivered again.
   */
  lemma AppendEntriesPlacement<C>(log: seq<Entry<C>>, base: Index, prev: Cursor, entries: seq<Entry<C>>, t: Term)
    requires base <= |log| && base <= prev.index
    requires NondecreasingTerms(log) && TermsBoundedBy(log, t) && AllOfTerm(entries, t)
    requires Consistent(log, base, prev)
    ensures var r := Accepted(log, base, prev, entries);
            Placed(log, prev.index, entries, t, r) && Consistent(r, base, prev) && Accepted(r, base, prev, entries) == r
  {
    AcceptedIsOverlay(log, base, prev, entries, t);
    OverlayIsPlaced(log, prev.index, entries, t);
    var r := Overlay(log, prev.index, entries);
    PlacedStaysConsistent(log, base, prev, entries, t, r);
    AcceptedIsOverlay(r, base, prev, entries, t);
    OverlayTwice(log, prev.index, entries, t);
  }

  /**
   * The same claim without the pruning condition is false: index 0 answers term 0 on a pruned log, so a
   * batch sent for the start of the log passes the check and lands behind entries it should precede.
   */
  lemma BatchBelowPruningPointIsMisplaced<C>(a: C, b: C)
    ensures var log := [Entry(1, a), Entry(1, a)];
            var batch := [Entry(2, b)];
            && Consistent(log, 2, Cursor(0, 0))
            && Accepted(log, 2, Cursor(0, 0), batch) == log + batch
            && Overlay(log, 0, batch) == batch
            && !Lands(Reconciled(log, 2, Cursor(0, 0), batch), 2, 1, batch)
  {
    var log := [Entry(1, a), Entry(1, a)];
    var batch := [Entry(2, b)];
    assert Reconciled(log, 2, Cursor(0, 0), batch) == log;
    assert batch[1..] == [];
    assert AppendMissing(log + batch, 2, 2, batch[1..]) == log + batch;
  }

  /**
   * Exactly when an accepted batch lands where it was sent: the position is at or above the pruning
   * point, or only one entry was pruned and it already carries the batch's term.
   */
  lemma PlacementExactCondition<C>(log: seq<Entry<C>>, base: Index, prev: Cursor, entries: seq<Entry<C>>, t: Term)
    requires base <= |log| && entries != []
    requires NondecreasingTerms(log) && TermsBoundedBy(log, t) && AllOfTerm(entries, t)
    requires Consistent(log, base, prev)
    ensures Lands(Reconciled(log, base, prev, entries), base, prev.index + 1, entries)
       <==> base <= prev.index || (base == 1 && log[0].term == t)
  {
    if base <= prev.index {
      AcceptedIsOverlay(log, base, prev, entries, t);
    } else {
      assert prev.index == 0;
      var kept := Reconciled(log, base, prev, entries);
      if base == 1 && log[0].term == t {
        WalkFromTheBoundary(log, entries, t);
      } else {
        assert TermAt(kept, base, 1) != Some(t);
        assert |kept| + 1 != 1;
      }
    }
  }

  /** One pruned entry that already has the batch's term is skipped like any other. */
  lemma WalkFromTheBoundary<C>(log: seq<Entry<C>>, entries: seq<Entry<C>>, t: Term)
    requires 1 <= |log| && entries != [] && AllOfTerm(log, t) && AllOfTerm(entries, t)
    ensures Lands(log, 1, 1, entries)
  {
    assert TermAt(log, 1, 1) == Some(t);
    WalkFillsTheEnd(log, 1, 2, entries[1..], t);
  }
}
