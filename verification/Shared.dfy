/** The state all roles of a node share: the log, the state machine, the last vote and the commit position. */
module SharedState {
  import opened RaftTypes
  import opened FullLog
  import opened CatchUpBuffer
  import opened LogStore

  /** A state machine fed each entry of a log once, in index order, with the term of the entry. */
  ghost function Replay<S, C>(step: (S, C, Term) -> S, state: S, entries: seq<Entry<C>>): S {
    if entries == [] then state
    else
      var last := entries[|entries| - 1];
      step(Replay(step, state, entries[..|entries| - 1]), last.command, last.term)
  }

  lemma {:induction false} ReplayConcat<S, C>(step: (S, C, Term) -> S, state: S, a: seq<Entry<C>>, b: seq<Entry<C>>)
    ensures Replay(step, state, a + b) == Replay(step, Replay(step, state, a), b)
  {
    if b == [] {
      assert a + b == a;
    } else {
      var front := b[..|b| - 1];
      assert (a + b)[..|a + b| - 1] == a + front;
      ReplayConcat(step, state, a, front);
    }
  }

  /** The entries that committing up to `index` newly applies. */
  function Newly<C>(log: seq<Entry<C>>, committed: Index, index: Index): seq<Entry<C>> {
    var hi := Min(index, |log|);
    if committed < hi then log[committed..hi] else []
  }

  function CommittedAfter<C>(log: seq<Entry<C>>, committed: Cursor, index: Index): Cursor {
    var newly := Newly(log, committed.index, index);
    if newly == [] then committed else Cursor(newly[|newly| - 1].term, committed.index + |newly|)
  }

  ghost predicate Matches<C>(commands: seq<Indexed<C>>, entries: seq<Entry<C>>) {
    |commands| == |entries| &&
    forall i :: 0 <= i < |entries| ==> entries[i] == Entry(commands[i].term, commands[i].command)
  }

  lemma FetchedAreNew<C>(log: seq<Entry<C>>, committed: Index, index: Index)
    ensures Matches(Slice(log, committed + 1, index), Newly(log, committed, index))
  {
  }

  /** A commit reaches as far as asked and as the log goes, never back, and its cursor is that of the log's entry there. */
  lemma CommitCursor<C>(log: seq<Entry<C>>, committed: Cursor, index: Index)
    ensures var after := CommittedAfter(log, committed, index);
            && after.index == Max(committed.index, Min(index, |log|))
            && (committed.index < after.index ==> after == CursorAt(log, after.index))
            && log[Min(committed.index, |log|)..Min(after.index, |log|)] == Newly(log, committed.index, index)
  {
    assert Min(index, |log|) <= committed.index || |Newly(log, committed.index, index)| == Min(index, |log|) - committed.index;
  }

  /** Applying the batch `newly[i..j]` continues both replays. */
  lemma AnotherBatch<S, C>(step: (S, C, Term) -> S, initial: S, applied: seq<Entry<C>>, machine: S, newly: seq<Entry<C>>, i: nat, j: nat)
    requires i <= j <= |newly|
    ensures Replay(step, machine, newly[..j]) == Replay(step, Replay(step, machine, newly[..i]), newly[i..j])
    ensures Replay(step, initial, applied + newly[..j]) == Replay(step, Replay(step, initial, applied + newly[..i]), newly[i..j])
  {
    assert newly[..j] == newly[..i] + newly[i..j];
    assert applied + newly[..j] == applied + newly[..i] + newly[i..j];
    ReplayConcat(step, machine, newly[..i], newly[i..j]);
    ReplayConcat(step, initial, applied + newly[..i], newly[i..j]);
  }

  ghost predicate BatchOf<C>(commands: seq<Indexed<C>>, term: Term, batch: seq<Entry<C>>) {
    |batch| == |commands| && forall i :: 0 <= i < |batch| ==> batch[i] == Entry(term, commands[i].command)
  }

  lemma BatchMatches<C>(commands: seq<Indexed<C>>, newly: seq<Entry<C>>, i: nat, j: nat)
    requires Matches(commands, newly) && i < j <= |commands|
    requires forall k :: i <= k < j ==> commands[k].term == commands[i].term
    ensures BatchOf(commands[i..j], commands[i].term, newly[i..j]) && newly[j - 1].term == commands[i].term
  {
  }

  class Shared<S, C> {
    const store: InMemoryLogStore<C>
    const step: (S, C, Term) -> S
    ghost const initial: S
    var machine: S
    var committed: Cursor
    var lastVote: Option<Cast>
    /** Every entry the machine has been fed or that an installed snapshot stands for, in order. */
    ghost var applied: seq<Entry<C>>

    ghost predicate Valid()
      reads this, store
    {
      store.Valid() && store.offset <= committed.index && machine == Replay(step, initial, applied)
    }

    constructor (store: InMemoryLogStore<C>, step: (S, C, Term) -> S, initial: S)
      requires store.Valid() && store.offset == 0
      ensures Valid() && this.store == store && this.step == step && this.initial == initial
      ensures committed == Cursor(0, 0) && applied == [] && lastVote == None
    {
      this.store, this.step, this.initial := store, step, initial;
      machine, committed, lastVote, applied := initial, Cursor(0, 0), None, [];
    }

    predicate CanVote(term: Term, candidate: PeerId)
      reads this
    {
      lastVote.None? || lastVote.value.term < term || (lastVote.value.term == term && lastVote.value.candidate == candidate)
    }

    method SaveVote(term: Term, candidate: PeerId)
      modifies this`lastVote
      ensures lastVote == Some(Cast(term, candidate))
    {
      lastVote := Some(Cast(term, candidate));
    }

    /** The batch of one term, command by command. */
    method ApplyBatch(commands: seq<Indexed<C>>, term: Term, ghost batch: seq<Entry<C>>)
      requires BatchOf(commands, term, batch)
      modifies this`machine
      ensures machine == Replay(step, old(machine), batch)
    {
      for i := 0 to |commands|
        invariant machine == Replay(step, old(machine), batch[..i])
      {
        machine := step(machine, commands[i].command, term);
        assert batch[..i + 1][..i] == batch[..i];
      }
      assert batch[..|commands|] == batch;
    }

    /**
     * Applies the log up to `index`, in batches of equal term. The outcome is that of applying each newly
     * committed entry once, in index order, and the commit cursor is that of the last one.
     */
    method CommitUpTo(index: Index) returns (cursor: Cursor)
      requires Valid()
      modifies this`machine, this`committed, this`applied
      ensures Valid() && cursor == committed
      ensures var newly := Newly(store.full, old(committed.index), index);
              && applied == old(applied) + newly
              && machine == Replay(step, old(machine), newly)
              && committed == CommittedAfter(store.full, old(committed), index)
    {
      var commands := store.GetRange(committed.index + 1, index);
      ghost var full, lo := store.full, committed.index;
      FetchedAreNew(full, lo, index);
      ApplyInBatches(commands, Newly(full, lo, index));
      cursor := committed;
    }

    /** Splits the commands into runs of equal term and applies each run as one batch. */
    method ApplyInBatches(commands: seq<Indexed<C>>, ghost newly: seq<Entry<C>>)
      requires Matches(commands, newly) && machine == Replay(step, initial, applied)
      modifies this`machine, this`committed, this`applied
      ensures applied == old(applied) + newly && machine == Replay(step, old(machine), newly)
      ensures machine == Replay(step, initial, applied)
      ensures committed.index == old(committed.index) + |newly|
      ensures committed.term == if newly == [] then old(committed.term) else newly[|newly| - 1].term
    {
      var i := 0;
      while i < |commands|
        invariant 0 <= i <= |commands| && committed.index == old(committed.index) + i
        invariant committed.term == if i == 0 then old(committed.term) else newly[i - 1].term
        invariant applied == old(applied) + newly[..i] && machine == Replay(step, old(machine), newly[..i])
        invariant machine == Replay(step, initial, applied)
      {
        var j := BatchEnd(commands, i);
        BatchMatches(commands, newly, i, j);
        ApplyBatch(commands[i..j], commands[i].term, newly[i..j]);
        AnotherBatch(step, initial, old(applied), old(machine), newly, i, j);
        applied := old(applied) + newly[..j];
        committed := Cursor(commands[i].term, committed.index + (j - i));
        i := j;
      }
      assert newly[..|newly|] == newly;
    }

    /**
     * Takes over a snapshot that stands for `prefix`: the log restarts at the anchor and the buffered entries behind
     * it follow. `ok` is false when a buffered entry is not at the next position, which stops the node.
     */
    method InstallAt(snapshot: S, anchor: Cursor, buffered: seq<Buffered<C>>, ghost prefix: seq<Entry<C>>) returns (ok: bool)
      requires store.Valid() && anchor == Last(prefix)
      modifies this`machine, this`committed, this`applied, store
      ensures ok <==> Adjoins(Tail(buffered, anchor.index), anchor.index)
      ensures ok ==> store.Valid() && store.full == Installed(prefix, buffered) && store.offset == |prefix|
      ensures machine == snapshot && committed == anchor && applied == prefix
      ensures ok && snapshot == Replay(step, initial, prefix) ==> Valid()
    {
      machine := snapshot;
      store.ResetTo(anchor, prefix);
      committed, applied := anchor, prefix;
      var tail := RetainTail(buffered, anchor.index);
      ok := AppendTail(store, tail, anchor.index);
    }

    /** Prunes committed entries the snapshot provider no longer needs, but never the last committed one. */
    method PruneSafePrefix(safe: Option<Index>)
      requires Valid()
      modifies store
      ensures Valid() && store.full == old(store.full)
      ensures store.offset == (if committed.index == 0 || safe.None? then old(store.offset)
                               else Max(old(store.offset), Min(Min(safe.value, committed.index - 1), |store.full|)))
    {
      if committed.index != 0 && safe.Some? {
        store.PrunePrefix(Min(safe.value, committed.index - 1));
      }
    }
  }

  /** The end of the run of equal terms that starts at `i`. */
  method BatchEnd<C>(commands: seq<Indexed<C>>, i: nat) returns (j: nat)
    requires i < |commands|
    ensures i < j <= |commands|
    ensures forall k :: i <= k < j ==> commands[k].term == commands[i].term
    ensures j < |commands| ==> commands[j].term != commands[i].term
  {
    j := i + 1;
    while j < |commands| && commands[j].term == commands[i].term
      invariant i < j <= |commands|
      invariant forall k :: i <= k < j ==> commands[k].term == commands[i].term
    {
      j := j + 1;
    }
  }

  lemma OneMoreUnnumbered<C>(tail: seq<Buffered<C>>, i: nat)
    requires i < |tail|
    ensures Unnumbered(tail[..i + 1]) == Unnumbered(tail[..i]) + [tail[i].entry]
  {
    assert tail[..i + 1] == tail[..i] + [tail[i]];
  }

  /** Appends entry by entry and stops at the first one out of place. */
  method AppendTail<C>(store: InMemoryLogStore<C>, tail: seq<Buffered<C>>, after: Index) returns (ok: bool)
    requires store.Valid()
    modifies store
    ensures store.Valid() && store.offset == old(store.offset)
    ensures ok <==> Adjoins(tail, after)
    ensures ok ==> store.full == old(store.full) + Unnumbered(tail)
  {
    var pos := after + 1;
    assert old(store.full) + Unnumbered(tail[..0]) == old(store.full);
    for i := 0 to |tail|
      invariant store.Valid() && store.offset == old(store.offset)
      invariant pos == after + 1 + i && store.full == old(store.full) + Unnumbered(tail[..i])
      invariant forall j :: 0 <= j < i ==> tail[j].index == after + 1 + j
    {
      if tail[i].index != pos {
        return false;
      }
      OneMoreUnnumbered(tail, i);
      var _ := store.Append(tail[i].entry.command, tail[i].entry.term);
      pos := pos + 1;
    }
    assert tail[..|tail|] == tail;
    ok := true;
  }
}
