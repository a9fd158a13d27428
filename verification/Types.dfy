/** Positions, log entries and votes shared by every part of the model. */
module RaftTypes {

  type PeerId = nat
  type Term = nat
  type Index = nat

  datatype Option<+T> = None | Some(value: T)

  /** Progress of a log: the term and the index of its last entry, ordered lexicographically. */
  datatype Cursor = Cursor(term: Term, index: Index) {
    predicate IsBehind(other: Cursor) {
      term < other.term || (term == other.term && index < other.index)
    }
  }

  datatype Entry<+C> = Entry(term: Term, command: C)

  datatype Vote = Granted | Denied | Abstained

  /** The vote a node has cast in a term. */
  datatype Cast = Cast(term: Term, candidate: PeerId)

  function Min(a: int, b: int): int {
    if a <= b then a else b
  }

  function Max(a: int, b: int): int {
    if a <= b then b else a
  }
}

/**
 * What a log store answers, said on the whole log: `log` holds every entry from index 1 on
 * (entry `i` is `log[i - 1]`) and `base` is the index up to which the prefix has been pruned.
 */
module FullLog {
  import opened RaftTypes

  /** The cursor of the entry at index `i`; index 0 stands for the empty log. */
  function CursorAt<C>(log: seq<Entry<C>>, i: Index): Cursor
    requires i <= |log|
  {
    Cursor(if i == 0 then 0 else log[i - 1].term, i)
  }

  function Last<C>(log: seq<Entry<C>>): Cursor {
    CursorAt(log, |log|)
  }

  /** Index 0 always answers term 0, also when the prefix is pruned; the pruning boundary still answers. */
  function TermAt<C>(log: seq<Entry<C>>, base: Index, i: Index): Option<Term> {
    if i == 0 then Some(0)
    else if i < base || |log| < i then None
    else Some(log[i - 1].term)
  }

  /** Drops the entries from index `at` on, but never any entry of the pruned prefix. */
  function Truncated<C>(log: seq<Entry<C>>, base: Index, at: Index): seq<Entry<C>> {
    if at <= base then log[..Min(base, |log|)]
    else if at <= |log| then log[..at - 1]
    else log
  }

  ghost predicate NondecreasingTerms<C>(log: seq<Entry<C>>) {
    forall i, j :: 0 <= i <= j < |log| ==> log[i].term <= log[j].term
  }

  ghost predicate TermsBoundedBy<C>(log: seq<Entry<C>>, t: Term) {
    forall i :: 0 <= i < |log| ==> log[i].term <= t
  }

  ghost predicate AllOfTerm<C>(log: seq<Entry<C>>, t: Term) {
    forall i :: 0 <= i < |log| ==> log[i].term == t
  }
}

/** Entries received while a node catches up, and what becomes of them once a snapshot is installed. */
module CatchUpBuffer {
  import opened RaftTypes

  /** An entry kept with the index it was sent for. */
  datatype Buffered<+C> = Buffered(index: Index, entry: Entry<C>)

  function Numbered<C>(prev: Index, entries: seq<Entry<C>>): seq<Buffered<C>> {
    seq(|entries|, i requires 0 <= i < |entries| => Buffered(prev + 1 + i, entries[i]))
  }

  /** The buffered entries that a snapshot up to `after` does not cover. */
  function Tail<C>(buffered: seq<Buffered<C>>, after: Index): seq<Buffered<C>> {
    if buffered == [] then []
    else (if buffered[0].index > after then [buffered[0]] else []) + Tail(buffered[1..], after)
  }

  function Unnumbered<C>(buffered: seq<Buffered<C>>): (r: seq<Entry<C>>)
    ensures |r| == |buffered|
  {
    seq(|buffered|, i requires 0 <= i < |buffered| => buffered[i].entry)
  }

  /** The tail starts right behind `after` and has no holes; the code asserts it. */
  predicate Adjoins<C>(tail: seq<Buffered<C>>, after: Index) {
    forall i :: 0 <= i < |tail| ==> tail[i].index == after + 1 + i
  }

  /** The log after installing a snapshot that stands for `prefix`. */
  function Installed<C>(prefix: seq<Entry<C>>, buffered: seq<Buffered<C>>): seq<Entry<C>> {
    prefix + Unnumbered(Tail(buffered, |prefix|))
  }

  method RetainTail<C>(buffered: seq<Buffered<C>>, after: Index) returns (tail: seq<Buffered<C>>)
    ensures tail == Tail(buffered, after)
  {
    tail := [];
    for i := 0 to |buffered|
      invariant Tail(buffered, after) == tail + Tail(buffered[i..], after)
    {
      assert buffered[i..][1..] == buffered[i + 1..];
      if buffered[i].index > after {
        assert tail + ([buffered[i]] + Tail(buffered[i + 1..], after)) == tail + [buffered[i]] + Tail(buffered[i + 1..], after);
        tail := tail + [buffered[i]];
      }
    }
  }

  /** A buffer that starts no later than right behind `after` and has no holes leaves a tail that adjoins it. */
  lemma {:induction false} TailIsSuffix<C>(buffered: seq<Buffered<C>>, first: Index, after: Index)
    requires Adjoins(buffered, first) && first <= after
    ensures Tail(buffered, after) == buffered[Min(|buffered|, after - first)..]
    ensures Adjoins(Tail(buffered, after), after)
  {
    if buffered == [] {
    } else if first == after {
      TailIsAll(buffered, after);
    } else {
      var rest := buffered[1..];
      TailIsSuffix(rest, first + 1, after);
      assert buffered[0].index <= after;
      assert Tail(buffered, after) == Tail(rest, after);
    }
  }

  /** The tail of a buffer without holes adjoins the anchor exactly when nothing is buffered or the buffer reaches the anchor. */
  lemma AdjoinsExactly<C>(buffered: seq<Buffered<C>>, first: Index, after: Index)
    requires Adjoins(buffered, first)
    ensures Adjoins(Tail(buffered, after), after) <==> buffered == [] || first <= after
  {
    if first <= after {
      TailIsSuffix(buffered, first, after);
    } else if buffered != [] {
      TailIsAll(buffered, after);
      assert buffered[0].index == first + 1;
    }
  }

  lemma {:induction false} TailIsAll<C>(buffered: seq<Buffered<C>>, after: Index)
    requires forall i :: 0 <= i < |buffered| ==> buffered[i].index > after
    ensures Tail(buffered, after) == buffered
  {
    if buffered != [] {
      TailIsAll(buffered[1..], after);
    }
  }
}

/** A log cut into batches. */
module LogBatches {
  import opened RaftTypes

  function CommandsOf<C>(batch: seq<Entry<C>>): seq<C> {
    seq(|batch|, i requires 0 <= i < |batch| => batch[i].command)
  }

  function Joined<C>(batches: seq<seq<Entry<C>>>): seq<Entry<C>> {
    if batches == [] then [] else Joined(batches[..|batches| - 1]) + batches[|batches| - 1]
  }
}
