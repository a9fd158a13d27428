/**
 * How many requests a download takes. When each response answers its peer's current request, every response brings one
 * chunk that was missing and none is lost, so an anchor's download is over after exactly as many answers as its
 * snapshot has chunks, in whatever order they come and however many requests time out in between.
 */
module FetchProgress {
  import opened RaftTypes
  import opened Sorting
  import opened SnapshotProtocol
  import opened SyncSession
  import opened FetchScheduling

  // ---------------------------------------------------------------- chunks of a range

  /** The starts of the chunks in a range. */
  function Grid(start: nat, end: nat, batch: nat): set<nat>
    requires batch > 0
  {
    set k | start <= k < end && Aligned(k, batch)
  }

  /** The number of chunks of a snapshot of `n` items. */
  function ChunkCount(n: nat, batch: nat): nat
    requires batch > 0
  {
    if n == 0 then 0 else (n - 1) / batch + 1
  }

  lemma MultipleIsAligned(batch: nat, q: nat)
    requires batch > 0
    ensures batch * q >= 0 && Aligned(batch * q, batch)
    decreases q
  {
    if q > 0 {
      MultipleIsAligned(batch, q - 1);
      assert batch * q == batch * (q - 1) + batch;
      AlignedNext(batch * (q - 1), batch);
    }
  }

  /** One more chunk, starting at `at`. */
  lemma GridGrows(at: nat, n: nat, batch: nat)
    requires batch > 0 && Aligned(at, batch) && at < n <= at + batch
    ensures Grid(0, n, batch) == Grid(0, at, batch) + {at} && at !in Grid(0, at, batch)
  {
    forall k | k in Grid(0, n, batch)
      ensures k in Grid(0, at, batch) + {at}
    {
      if at < k {
        AlignedApart(at, k, batch);
      }
    }
  }

  lemma {:induction false} GridOfMultiple(batch: nat, q: nat)
    requires batch > 0
    ensures batch * q >= 0 && |Grid(0, batch * q, batch)| == q
    decreases q
  {
    if q > 0 {
      var at := batch * (q - 1);
      GridOfMultiple(batch, q - 1);
      MultipleIsAligned(batch, q - 1);
      assert batch * q == at + batch;
      GridGrows(at, batch * q, batch);
    }
  }

  lemma GridSizeAt(at: nat, n: nat, batch: nat, q: nat)
    requires batch > 0 && at == batch * q && at < n <= at + batch
    ensures |Grid(0, n, batch)| == q + 1
  {
    GridOfMultiple(batch, q);
    MultipleIsAligned(batch, q);
    GridGrows(at, n, batch);
  }

  lemma Quotient(n: nat, batch: nat) returns (at: nat)
    requires batch > 0
    ensures at == batch * (n / batch) && at <= n < at + batch
  {
    at := n - n % batch;
  }

  lemma GridSize(n: nat, batch: nat)
    requires batch > 0
    ensures |Grid(0, n, batch)| == ChunkCount(n, batch)
  {
    if n > 0 {
      var at := Quotient(n - 1, batch);
      GridSizeAt(at, n, batch, (n - 1) / batch);
    }
  }

  // ---------------------------------------------------------------- what is missing

  /** The chunks of the gap that are not held. */
  function Missing<Item, C>(s: Session<Item, C>, batch: nat): set<nat>
    requires batch > 0
  {
    if s.gap.None? then {} else Grid(s.gap.value.start, s.gap.value.end, batch) - s.fetched.Keys
  }

  lemma OneLess(grid: set<nat>, held: set<nat>, held': set<nat>, k: nat)
    requires k in grid && k !in held && held' == held + {k}
    ensures |grid - held'| + 1 == |grid - held|
  {
    assert (grid - held') + {k} == grid - held;
  }

  lemma HoldingOneMore<Item, C>(s: Session<Item, C>, s': Session<Item, C>, k: nat, batch: nat)
    requires batch > 0 && s.gap.Some? && s'.gap == s.gap && k in Missing(s, batch) && s'.fetched.Keys == s.fetched.Keys + {k}
    ensures |Missing(s', batch)| + 1 == |Missing(s, batch)|
  {
    OneLess(Grid(s.gap.value.start, s.gap.value.end, batch), s.fetched.Keys, s'.fetched.Keys, k);
  }

  lemma RequestedIsMissing<Item, C>(s: Session<Item, C>, peer: PeerId, batch: nat)
    requires batch > 0 && Tidy(s, batch) && s.anchor.Some? && peer in s.inflight
    ensures s.inflight[peer].start in Missing(s, batch)
  {
    assert IsChunk(s.inflight[peer], s.gap.value, batch);
  }

  lemma AnswerBringsOneChunk<Item, C>(s: Session<Item, C>, peer: PeerId, anchor: Cursor, offset: nat, items: seq<Item>, batch: nat)
    requires batch > 0 && Tidy(s, batch) && s.anchor == Some(anchor) && Answers(s, Response(peer, anchor, offset, items))
    ensures |Missing(Responded(s, peer, anchor, offset, items), batch)| + 1 == |Missing(s, batch)|
  {
    RequestedIsMissing(s, peer, batch);
    HoldingOneMore(s, Responded(s, peer, anchor, offset, items), offset, batch);
  }

  lemma DrainOneLosesNothing<Item, C>(s: Session<Item, C>, batch: nat)
    requires batch > 0 && Tidy(s, batch) && Contiguous(s)
    ensures Missing(DrainOne(s), batch) == Missing(s, batch)
  {
    var gap, start := s.gap.value, s.gap.value.start;
    assert IsChunk(Range(start, s.fetched[start].end), gap, batch);
    forall k | k in Grid(start, gap.end, batch) && k != start
      ensures s.fetched[start].end <= k
    {
      AlignedApart(start, k, batch);
    }
  }

  lemma {:induction false} DrainLosesNothing<Item, C>(s: Session<Item, C>, batch: nat)
    requires batch > 0 && Tidy(s, batch)
    ensures Missing(DrainAll(s), batch) == Missing(s, batch)
    decreases s.fetched.Keys
  {
    if Contiguous(s) {
      DrainOneKeepsTidy(s, batch);
      DrainOneLosesNothing(s, batch);
      DrainLosesNothing(DrainOne(s), batch);
    }
  }

  /** A download is finished by draining exactly when nothing is missing. */
  lemma FinishedExactly<Item, C>(s: Session<Item, C>, batch: nat)
    requires batch > 0 && Tidy(s, batch) && s.anchor.Some?
    ensures Complete(Drained(s)) <==> Missing(s, batch) == {}
  {
    DrainKeepsTidy(s, batch);
    DrainLosesNothing(s, batch);
    DrainKeepsRest(s);
    var d := Drained(s);
    if HasGap(d) {
      assert d.gap.value.start in Missing(d, batch);
    }
  }

  // ---------------------------------------------------------------- counting answers

  /** The `i`-th event answers a request for anchor `a` while the session downloads it. */
  ghost predicate AnswersFor<Item, C>(states: seq<Session<Item, C>>, events: seq<Event<Item, C>>, i: nat, a: Cursor)
    requires i < |events| && |states| == |events| + 1
  {
    events[i].Response? && events[i].anchor == a && states[i].anchor == Some(a)
  }

  ghost function AnswerCount<Item, C>(states: seq<Session<Item, C>>, events: seq<Event<Item, C>>, n: nat, a: Cursor): nat
    requires n <= |events| && |states| == |events| + 1
  {
    if n == 0 then 0 else AnswerCount(states, events, n - 1, a) + if AnswersFor(states, events, n - 1, a) then 1 else 0
  }

  /** The gap still ends where the snapshot does. */
  ghost predicate Accounted<Item, C>(states: seq<Session<Item, C>>, events: seq<Event<Item, C>>, n: nat, batch: nat)
    requires batch > 0 && n < |states| == |events| + 1
  {
    var s := states[n];
    s.anchor.Some? ==>
      s.gap.Some? && AnswerCount(states, events, n, s.anchor.value) + |Missing(s, batch)| == ChunkCount(s.gap.value.end, batch)
  }

  lemma {:induction false} AnchorsOnlyRise<Item, C>(cfg: Config, states: seq<Session<Item, C>>, events: seq<Event<Item, C>>, i: nat, j: nat)
    requires Steps(cfg, states, events) && i <= j < |states| && states[i].anchor.Some?
    ensures states[j].anchor.Some? && (states[j].anchor == states[i].anchor || states[i].anchor.value.index < states[j].anchor.value.index)
  {
    if i < j {
      AnchorsOnlyRise(cfg, states, events, i, j - 1);
      assert StepAt(cfg, states, events, j - 1);
      AnchorsRise(cfg, states[j - 1], events[j - 1], states[j]);
    }
  }

  /** Nothing was answered for an anchor that is higher than the current one. */
  lemma {:induction false} NoAnswersYet<Item, C>(cfg: Config, states: seq<Session<Item, C>>, events: seq<Event<Item, C>>, n: nat, m: nat, a: Cursor)
    requires Steps(cfg, states, events) && n <= m < |states|
    requires states[m].anchor.Some? ==> states[m].anchor.value.index < a.index
    ensures AnswerCount(states, events, n, a) == 0
  {
    if n > 0 {
      NoAnswersYet(cfg, states, events, n - 1, m, a);
      if states[n - 1].anchor.Some? {
        AnchorsOnlyRise(cfg, states, events, n - 1, m);
      }
    }
  }

  /** A step leaves the anchor, or selects a higher one and starts over. */
  lemma SelectStartsOver<Item, C>(s: Session<Item, C>, s': Session<Item, C>, batch: nat)
    requires batch > 0 && Tidy(s, batch) && Selects(s, s') && s'.anchor != s.anchor
    ensures s'.anchor.Some? && (s.anchor.Some? ==> s.anchor.value.index < s'.anchor.value.index)
    ensures s'.gap.Some? && |Missing(s', batch)| == ChunkCount(s'.gap.value.end, batch)
  {
    var c :| Best(s, c) && s' == Anchored(s, c);
    GridSize(s'.gap.value.end, batch);
    assert Missing(s', batch) == Grid(0, s'.gap.value.end, batch);
  }

  lemma StepStartsOver<Item, C>(cfg: Config, s: Session<Item, C>, e: Event<Item, C>, s': Session<Item, C>)
    requires cfg.batch > 0 && Tidy(s, cfg.batch) && Step(cfg, s, e, s') && s'.anchor != s.anchor
    ensures s'.anchor.Some? && (s.anchor.Some? ==> s.anchor.value.index < s'.anchor.value.index)
    ensures s'.gap.Some? && |Missing(s', cfg.batch)| == ChunkCount(s'.gap.value.end, cfg.batch)
    ensures !e.Response?
  {
    match e
    case Offered(peer, anchor, itemsCount) => SelectStartsOver(Recorded(s, peer, anchor, itemsCount), s', cfg.batch);
    case Select => SelectStartsOver(s, s', cfg.batch);
    case Drain => DrainKeepsRest(s);
    case _ =>
  }

  /** Apart from answers and draining, a step that keeps the anchor keeps gap and held chunks. */
  lemma OtherStepsKeepChunks<Item, C>(cfg: Config, s: Session<Item, C>, e: Event<Item, C>, s': Session<Item, C>)
    requires s.anchor.Some? && Step(cfg, s, e, s') && s'.anchor == s.anchor && !e.Drain?
    requires e.Response? ==> s.anchor != Some(e.anchor)
    ensures s'.gap == s.gap && s'.fetched == s.fetched
  {
  }

  lemma DrainKeepsCount<Item, C>(s: Session<Item, C>, batch: nat)
    requires batch > 0 && Tidy(s, batch) && s.anchor.Some?
    ensures var s' := Drained(s); s'.gap.Some? && s'.gap.value.end == s.gap.value.end && Missing(s', batch) == Missing(s, batch)
  {
    DrainLosesNothing(s, batch);
    DrainKeepsTidy(s, batch);
  }

  /** A step that keeps the anchor keeps what is missing, except that an answer brings one chunk. */
  lemma StepKeepsCount<Item, C>(cfg: Config, s: Session<Item, C>, e: Event<Item, C>, s': Session<Item, C>)
    requires cfg.batch > 0 && Tidy(s, cfg.batch) && s.anchor.Some? && Step(cfg, s, e, s') && Answers(s, e) && s'.anchor == s.anchor
    ensures s'.gap.Some? && s'.gap.value.end == s.gap.value.end
    ensures |Missing(s', cfg.batch)| + (if e.Response? && s.anchor == Some(e.anchor) then 1 else 0) == |Missing(s, cfg.batch)|
  {
    if e.Response? && s.anchor == Some(e.anchor) {
      AnswerBringsOneChunk(s, e.peer, e.anchor, e.offset, e.items, cfg.batch);
    } else if e.Drain? {
      DrainKeepsCount(s, cfg.batch);
    } else {
      OtherStepsKeepChunks(cfg, s, e, s');
    }
  }

  lemma StepIsAccounted<Item, C>(cfg: Config, states: seq<Session<Item, C>>, events: seq<Event<Item, C>>, n: nat)
    requires cfg.batch > 0 && Steps(cfg, states, events) && n < |events|
    requires Tidy(states[n], cfg.batch) && Answers(states[n], events[n]) && Accounted(states, events, n, cfg.batch)
    ensures Accounted(states, events, n + 1, cfg.batch)
  {
    assert StepAt(cfg, states, events, n);
    var s, e, s' := states[n], events[n], states[n + 1];
    if s'.anchor != s.anchor {
      StepStartsOver(cfg, s, e, s');
      NoAnswersYet(cfg, states, events, n, n, s'.anchor.value);
    } else if s.anchor.Some? {
      StepKeepsCount(cfg, s, e, s');
    }
  }

  lemma {:induction false} AllIsAccounted<Item, C>(cfg: Config, states: seq<Session<Item, C>>, events: seq<Event<Item, C>>, n: nat)
    requires cfg.batch > 0 && IsRun(cfg, states, events) && n < |states|
    requires forall i :: 0 <= i < |events| ==> Answers(states[i], events[i])
    ensures Accounted(states, events, n, cfg.batch)
  {
    if n > 0 {
      AllIsAccounted(cfg, states, events, n - 1);
      FetchesStayTidy(cfg, states, events, n - 1);
      assert Answers(states[n - 1], events[n - 1]);
      StepIsAccounted(cfg, states, events, n - 1);
    }
  }

  /**
   * In every run in which each response answers its peer's current request, an anchor's download takes no more answers
   * than its snapshot has chunks, and it is finished by draining exactly when there were that many.
   */
  lemma FinishedAfterItsChunks<Item, C>(cfg: Config, states: seq<Session<Item, C>>, events: seq<Event<Item, C>>, n: nat)
    requires cfg.batch > 0 && IsRun(cfg, states, events) && n < |states| && states[n].anchor.Some?
    requires forall i :: 0 <= i < |events| ==> Answers(states[i], events[i])
    ensures states[n].gap.Some?
    ensures var answers := AnswerCount(states, events, n, states[n].anchor.value);
            var chunks := ChunkCount(states[n].gap.value.end, cfg.batch);
            answers <= chunks && (Complete(Drained(states[n])) <==> answers == chunks)
  {
    AllIsAccounted(cfg, states, events, n);
    FetchesStayTidy(cfg, states, events, n);
    FinishedExactly(states[n], cfg.batch);
  }
}
