/**
 * Which chunks of a snapshot are requested, held and still missing, when every response answers the request its peer
 * currently has in flight.
 */
module FetchScheduling {
  import opened RaftTypes
  import opened Sorting
  import opened SnapshotProtocol
  import opened SyncSession

  // ---------------------------------------------------------------- the grid of chunks

  predicate Aligned(k: nat, batch: nat)
    requires batch > 0
  {
    k % batch == 0
  }

  lemma Multiples(batch: nat, p: int, q: int)
    requires p <= q
    ensures batch * p <= batch * q
  {
  }

  lemma AlignedNext(k: nat, batch: nat)
    requires batch > 0 && Aligned(k, batch)
    ensures Aligned(k + batch, batch)
  {
    var n := k + batch;
    var off := k / batch + 1 - n / batch;
    assert n % batch == batch * off;
    if off > 0 {
      Multiples(batch, 1, off);
    } else if off < 0 {
      Multiples(batch, off, -1);
    }
  }

  lemma AlignedApart(a: nat, b: nat, batch: nat)
    requires batch > 0 && Aligned(a, batch) && Aligned(b, batch) && a < b
    ensures a + batch <= b
  {
    var p, q := a / batch, b / batch;
    if q <= p {
      Multiples(batch, q, p);
    } else {
      Multiples(batch, p + 1, q);
    }
  }

  /** A chunk of the grid inside the gap. */
  predicate IsChunk(r: Range, gap: Range, batch: nat)
    requires batch > 0
  {
    gap.start <= r.start < gap.end && Aligned(r.start, batch) && r.end == ChunkEnd(r.start, batch, gap.end)
  }

  predicate Disjoint(a: Range, b: Range) {
    a.end <= b.start || b.end <= a.start
  }

  lemma ChunksAreDisjoint(a: Range, b: Range, gap: Range, batch: nat)
    requires batch > 0 && IsChunk(a, gap, batch) && IsChunk(b, gap, batch) && a.start != b.start
    ensures Disjoint(a, b)
  {
    if a.start < b.start {
      AlignedApart(a.start, b.start, batch);
    } else {
      AlignedApart(b.start, a.start, batch);
    }
  }

  /** A cursor is on the grid or at the end of the gap. */
  predicate OnGrid(k: nat, gap: Range, batch: nat)
    requires batch > 0
  {
    k == gap.end || (k < gap.end && Aligned(k, batch))
  }

  lemma ChunkEndOnGrid(k: nat, gap: Range, batch: nat)
    requires batch > 0 && k < gap.end && Aligned(k, batch)
    ensures OnGrid(ChunkEnd(k, batch, gap.end), gap, batch) && k < ChunkEnd(k, batch, gap.end)
  {
    AlignedNext(k, batch);
  }

  // ---------------------------------------------------------------- the invariant

  ghost predicate InflightChunks<Item, C>(s: Session<Item, C>, batch: nat)
    requires batch > 0 && s.gap.Some?
  {
    && (forall p :: p in s.inflight ==> IsChunk(s.inflight[p], s.gap.value, batch) && s.inflight[p].start !in s.fetched)
    && (forall p, q :: p in s.inflight && q in s.inflight && s.inflight[p].start == s.inflight[q].start ==> p == q)
  }

  ghost predicate FetchedChunks<Item, C>(s: Session<Item, C>, batch: nat)
    requires batch > 0 && s.gap.Some?
  {
    forall k :: k in s.fetched ==> IsChunk(Range(k, s.fetched[k].end), s.gap.value, batch)
  }

  /** Requested and held chunks are chunks of the gap, and no chunk is requested or held twice. */
  ghost predicate Tidy<Item, C>(s: Session<Item, C>, batch: nat)
    requires batch > 0
  {
    match s.anchor
    case None => s.gap.None? && s.inflight == map[] && s.fetched == map[]
    case Some(_) => s.gap.Some? && OnGrid(s.gap.value.start, s.gap.value, batch) && InflightChunks(s, batch) && FetchedChunks(s, batch)
  }

  /** What tidiness says of ranges: all requested and held ranges lie in the gap and are pairwise disjoint. */
  lemma TidyRangesAreDisjoint<Item, C>(s: Session<Item, C>, batch: nat)
    requires batch > 0 && Tidy(s, batch)
    ensures forall p, q :: p in s.inflight && q in s.inflight && p != q ==> Disjoint(s.inflight[p], s.inflight[q])
    ensures forall p, k :: p in s.inflight && k in s.fetched ==> Disjoint(s.inflight[p], Range(k, s.fetched[k].end))
    ensures forall k, l :: k in s.fetched && l in s.fetched && k != l ==> Disjoint(Range(k, s.fetched[k].end), Range(l, s.fetched[l].end))
  {
    if s.anchor.Some? {
      var gap := s.gap.value;
      forall p, q | p in s.inflight && q in s.inflight && p != q
        ensures Disjoint(s.inflight[p], s.inflight[q])
      {
        ChunksAreDisjoint(s.inflight[p], s.inflight[q], gap, batch);
      }
      forall p, k | p in s.inflight && k in s.fetched
        ensures Disjoint(s.inflight[p], Range(k, s.fetched[k].end))
      {
        ChunksAreDisjoint(s.inflight[p], Range(k, s.fetched[k].end), gap, batch);
      }
      forall k, l | k in s.fetched && l in s.fetched && k != l
        ensures Disjoint(Range(k, s.fetched[k].end), Range(l, s.fetched[l].end))
      {
        ChunksAreDisjoint(Range(k, s.fetched[k].end), Range(l, s.fetched[l].end), gap, batch);
      }
    }
  }

  // ---------------------------------------------------------------- the walk over taken ranges

  ghost predicate AllChunks(taken: seq<Range>, gap: Range, batch: nat)
    requires batch > 0
  {
    forall i :: 0 <= i < |taken| ==> IsChunk(taken[i], gap, batch)
  }

  predicate StartsWith(taken: seq<Range>, k: nat) {
    exists i :: 0 <= i < |taken| && taken[i].start == k
  }

  /** A chunk covers a grid cursor only when it starts there. */
  lemma CoversOnlyItsStart(r: Range, cursor: nat, gap: Range, batch: nat)
    requires batch > 0 && IsChunk(r, gap, batch) && OnGrid(cursor, gap, batch)
    ensures r.start <= cursor < r.end <==> r.start == cursor
  {
    if r.start < cursor && cursor < gap.end {
      AlignedApart(r.start, cursor, batch);
    }
    ChunkEndOnGrid(r.start, gap, batch);
  }

  lemma {:induction false} SkipStays(taken: seq<Range>, cursor: nat)
    requires forall i :: 0 <= i < |taken| ==> cursor < taken[i].start
    ensures Skip(taken, cursor) == cursor
  {
    if taken != [] {
      SkipStays(taken[1..], cursor);
    }
  }

  /** The walk ends at the first grid position that no taken chunk starts at. */
  lemma {:induction false} SkipFindsFirstFree(taken: seq<Range>, cursor: nat, gap: Range, batch: nat)
    requires batch > 0 && AllChunks(taken, gap, batch) && SortedBy(taken, StartOf) && OnGrid(cursor, gap, batch)
    ensures var f := Skip(taken, cursor);
            && cursor <= f && OnGrid(f, gap, batch)
            && (f < gap.end ==> !StartsWith(taken, f))
            && (forall k :: cursor <= k < f && Aligned(k, batch) ==> StartsWith(taken, k))
  {
    if taken != [] {
      var rest, head := taken[1..], taken[0];
      CoversOnlyItsStart(head, cursor, gap, batch);
      if head.start == cursor {
        ChunkEndOnGrid(cursor, gap, batch);
        SkipFindsFirstFree(rest, head.end, gap, batch);
        SkipOverHead(taken, cursor, gap, batch);
      } else if head.start < cursor {
        SkipFindsFirstFree(rest, cursor, gap, batch);
        SkipPastHead(taken, cursor, batch);
      } else {
        SkipStays(rest, cursor);
      }
    }
  }

  lemma SkipOverHead(taken: seq<Range>, cursor: nat, gap: Range, batch: nat)
    requires batch > 0 && taken != [] && IsChunk(taken[0], gap, batch) && taken[0].start == cursor
    requires var f := Skip(taken[1..], taken[0].end);
             && taken[0].end <= f && (f < gap.end ==> !StartsWith(taken[1..], f))
             && (forall k :: taken[0].end <= k < f && Aligned(k, batch) ==> StartsWith(taken[1..], k))
    ensures var f := Skip(taken[1..], taken[0].end);
            && (f < gap.end ==> !StartsWith(taken, f))
            && (forall k :: cursor <= k < f && Aligned(k, batch) ==> StartsWith(taken, k))
  {
    var f, rest := Skip(taken[1..], taken[0].end), taken[1..];
    ChunkEndOnGrid(cursor, gap, batch);
    assert forall i :: 1 <= i < |taken| ==> taken[i] == rest[i - 1];
    forall k | cursor <= k < f && Aligned(k, batch)
      ensures StartsWith(taken, k)
    {
      if k < taken[0].end {
        if cursor < k {
          AlignedApart(cursor, k, batch);
        }
        assert taken[0].start == k;
      } else {
        var i :| 0 <= i < |rest| && rest[i].start == k;
        assert taken[i + 1].start == k;
      }
    }
  }

  lemma SkipPastHead(taken: seq<Range>, cursor: nat, batch: nat)
    requires batch > 0 && taken != [] && taken[0].start < cursor
    ensures forall k :: cursor <= k ==> StartsWith(taken, k) == StartsWith(taken[1..], k)
  {
    var rest := taken[1..];
    forall k | cursor <= k
      ensures StartsWith(taken, k) == StartsWith(rest, k)
    {
      if StartsWith(taken, k) {
        var i :| 0 <= i < |taken| && taken[i].start == k;
        assert rest[i - 1].start == k;
      }
      if StartsWith(rest, k) {
        var i :| 0 <= i < |rest| && rest[i].start == k;
        assert taken[i + 1].start == k;
      }
    }
  }

  // ---------------------------------------------------------------- assigning chunks to idle peers

  /** Every assigned range is a free chunk of its own. */
  ghost predicate FreshChunks(given: map<PeerId, Range>, taken: seq<Range>, cursor: nat, gap: Range, batch: nat)
    requires batch > 0
  {
    && (forall p :: p in given ==>
          IsChunk(given[p], gap, batch) && cursor <= given[p].start && !StartsWith(taken, given[p].start))
    && (forall p, q :: p in given && q in given && given[p].start == given[q].start ==> p == q)
  }

  ghost predicate Covered(given: map<PeerId, Range>, taken: seq<Range>, k: nat) {
    StartsWith(taken, k) || exists p :: p in given && given[p].start == k
  }

  lemma {:induction false} AssignmentIsFresh(idle: seq<PeerId>, cursor: nat, gap: Range, batch: nat, taken: seq<Range>)
    requires batch > 0 && AllChunks(taken, gap, batch) && SortedBy(taken, StartOf)
    requires Distinct(idle) && gap.start <= cursor && OnGrid(cursor, gap, batch) && (cursor < gap.end ==> !StartsWith(taken, cursor))
    ensures var given := Assignment(idle, cursor, gap.end, batch, taken);
            given.Keys <= Elements(idle) && FreshChunks(given, taken, cursor, gap, batch)
  {
    if idle != [] && cursor < gap.end {
      var next := ChunkEnd(cursor, batch, gap.end);
      ChunkEndOnGrid(cursor, gap, batch);
      SkipFindsFirstFree(taken, next, gap, batch);
      assert Elements(idle) == {idle[0]} + Elements(idle[1..]);
      AssignmentIsFresh(idle[1..], Skip(taken, next), gap, batch, taken);
      var rest := Assignment(idle[1..], Skip(taken, next), gap.end, batch, taken);
      OneMoreFresh(idle[0], Range(cursor, next), rest, taken, Skip(taken, next), gap, batch);
    }
  }

  lemma OneMoreFresh(peer: PeerId, r: Range, rest: map<PeerId, Range>, taken: seq<Range>, cursor: nat, gap: Range, batch: nat)
    requires batch > 0 && FreshChunks(rest, taken, cursor, gap, batch) && peer !in rest
    requires IsChunk(r, gap, batch) && !StartsWith(taken, r.start) && r.start < cursor
    ensures FreshChunks(map[peer := r] + rest, taken, r.start, gap, batch)
  {
  }

  lemma {:induction false} AssignmentCovers(idle: seq<PeerId>, cursor: nat, gap: Range, batch: nat, taken: seq<Range>, k: nat)
    requires batch > 0 && AllChunks(taken, gap, batch) && SortedBy(taken, StartOf)
    requires Distinct(idle) && OnGrid(cursor, gap, batch)
    requires cursor <= k < gap.end && Aligned(k, batch)
    ensures var given := Assignment(idle, cursor, gap.end, batch, taken);
            Covered(given, taken, k) || Elements(idle) <= given.Keys
  {
    if idle != [] {
      var next := ChunkEnd(cursor, batch, gap.end);
      var given := Assignment(idle, cursor, gap.end, batch, taken);
      var rest := Assignment(idle[1..], Skip(taken, next), gap.end, batch, taken);
      assert Elements(idle) == {idle[0]} + Elements(idle[1..]);
      ChunkEndOnGrid(cursor, gap, batch);
      SkipFindsFirstFree(taken, next, gap, batch);
      AssignmentKeys(idle[1..], Skip(taken, next), gap.end, batch, taken);
      if k < next {
        if cursor < k {
          AlignedApart(cursor, k, batch);
        }
        assert given[idle[0]].start == k;
      } else if Skip(taken, next) <= k {
        AssignmentCovers(idle[1..], Skip(taken, next), gap, batch, taken, k);
        if Covered(rest, taken, k) && !StartsWith(taken, k) {
          var p :| p in rest && rest[p].start == k;
          assert given[p] == rest[p];
        }
      }
    }
  }

  lemma {:induction false} AssignmentKeys(idle: seq<PeerId>, cursor: nat, end: nat, batch: nat, taken: seq<Range>)
    ensures Assignment(idle, cursor, end, batch, taken).Keys <= Elements(idle)
  {
    if idle != [] && cursor < end {
      AssignmentKeys(idle[1..], Skip(taken, ChunkEnd(cursor, batch, end)), end, batch, taken);
      assert Elements(idle) == {idle[0]} + Elements(idle[1..]);
    }
  }

  // ---------------------------------------------------------------- every step keeps the invariant

  lemma TakenAreChunks<Item, C>(s: Session<Item, C>, taken: seq<Range>, batch: nat)
    requires batch > 0 && Tidy(s, batch) && s.anchor.Some? && ListsTaken(s, taken)
    ensures AllChunks(taken, s.gap.value, batch)
    ensures forall k :: StartsWith(taken, k) <==> k in s.fetched || exists p :: p in s.inflight && s.inflight[p].start == k
  {
    forall i | 0 <= i < |taken|
      ensures IsChunk(taken[i], s.gap.value, batch)
    {
      assert Taken(s, taken[i]);
    }
    forall k | StartsWith(taken, k)
      ensures k in s.fetched || exists p :: p in s.inflight && s.inflight[p].start == k
    {
      var i :| 0 <= i < |taken| && taken[i].start == k;
      assert Taken(s, taken[i]);
    }
    forall k | k in s.fetched
      ensures StartsWith(taken, k)
    {
      assert Taken(s, Range(k, s.fetched[k].end));
    }
    forall p | p in s.inflight
      ensures StartsWith(taken, s.inflight[p].start)
    {
      assert Taken(s, s.inflight[p]);
    }
  }

  /** Adding requests for chunks that are neither requested nor held. */
  lemma RequestingKeepsTidy<Item, C>(s: Session<Item, C>, given: map<PeerId, Range>, batch: nat)
    requires batch > 0 && s.gap.Some? && InflightChunks(s, batch) && given.Keys !! s.inflight.Keys
    requires forall p :: p in given ==> IsChunk(given[p], s.gap.value, batch) && given[p].start !in s.fetched
    requires forall p, q :: p in given && q in s.inflight ==> given[p].start != s.inflight[q].start
    requires forall p, q :: p in given && q in given && given[p].start == given[q].start ==> p == q
    ensures InflightChunks(s.(inflight := s.inflight + given), batch)
  {
  }

  lemma ScheduleKeepsTidy<Item, C>(s: Session<Item, C>, leader: PeerId, taken: seq<Range>, idle: seq<PeerId>, batch: nat)
    requires batch > 0 && Tidy(s, batch) && ListsTaken(s, taken) && ListsIdle(s, leader, idle)
    ensures Tidy(Scheduled(s, taken, idle, batch), batch)
  {
    if HasGap(s) && s.anchor.Some? {
      var gap := s.gap.value;
      var cursor := Skip(taken, gap.start);
      var given := Assignment(idle, cursor, gap.end, batch, taken);
      TakenAreChunks(s, taken, batch);
      SkipFindsFirstFree(taken, gap.start, gap, batch);
      AssignmentIsFresh(idle, cursor, gap, batch, taken);
      FreshAreNew(s, given, taken, cursor, batch);
      RequestingKeepsTidy(s, given, batch);
    }
  }

  lemma FreshAreNew<Item, C>(s: Session<Item, C>, given: map<PeerId, Range>, taken: seq<Range>, cursor: nat, batch: nat)
    requires batch > 0 && s.gap.Some? && FreshChunks(given, taken, cursor, s.gap.value, batch)
    requires forall k :: StartsWith(taken, k) <==> k in s.fetched || exists p :: p in s.inflight && s.inflight[p].start == k
    ensures forall p :: p in given ==> given[p].start !in s.fetched
    ensures forall p, q :: p in given && q in s.inflight ==> given[p].start != s.inflight[q].start
  {
  }

  /** Some peer has the chunk that starts at `k` in flight. */
  ghost predicate Requested<Item, C>(s: Session<Item, C>, k: nat) {
    exists p :: p in s.inflight && s.inflight[p].start == k
  }

  /** Nothing is stranded: after scheduling, every missing chunk is requested or held, or every available peer is busy. */
  lemma NothingIsStranded<Item, C>(s: Session<Item, C>, leader: PeerId, taken: seq<Range>, idle: seq<PeerId>, batch: nat, k: nat)
    requires batch > 0 && Tidy(s, batch) && ListsTaken(s, taken) && ListsIdle(s, leader, idle)
    requires HasGap(s) && s.gap.value.start <= k < s.gap.value.end && Aligned(k, batch)
    ensures var s' := Scheduled(s, taken, idle, batch);
            Requested(s', k) || k in s'.fetched || s'.available <= s'.inflight.Keys
  {
    var gap := s.gap.value;
    var cursor := Skip(taken, gap.start);
    var given := Assignment(idle, cursor, gap.end, batch, taken);
    var s' := Scheduled(s, taken, idle, batch);
    TakenAreChunks(s, taken, batch);
    SkipFindsFirstFree(taken, gap.start, gap, batch);
    if cursor <= k {
      AssignmentCovers(idle, cursor, gap, batch, taken, k);
    }
    AssignmentKeys(idle, cursor, gap.end, batch, taken);
    GivenAreRequested(s, given, s', k);
  }

  lemma GivenAreRequested<Item, C>(s: Session<Item, C>, given: map<PeerId, Range>, s': Session<Item, C>, k: nat)
    requires s' == s.(inflight := s.inflight + given) && given.Keys !! s.inflight.Keys
    ensures Requested(s, k) ==> Requested(s', k)
    ensures (exists p :: p in given && given[p].start == k) ==> Requested(s', k)
  {
    if Requested(s, k) {
      var p :| p in s.inflight && s.inflight[p].start == k;
      assert s'.inflight[p].start == k;
    }
    if p :| p in given && given[p].start == k {
      assert s'.inflight[p].start == k;
    }
  }

  /** With an idle peer at hand, the chunk the gap begins with is requested, unless it is already held. */
  lemma HeadIsRequested<Item, C>(s: Session<Item, C>, leader: PeerId, taken: seq<Range>, idle: seq<PeerId>, batch: nat)
    requires batch > 0 && Tidy(s, batch) && ListsTaken(s, taken) && ListsIdle(s, leader, idle)
    requires HasGap(s) && s.gap.value.start !in s.fetched && idle != []
    ensures Requested(Scheduled(s, taken, idle, batch), s.gap.value.start)
  {
    var gap := s.gap.value;
    var cursor := Skip(taken, gap.start);
    var given := Assignment(idle, cursor, gap.end, batch, taken);
    TakenAreChunks(s, taken, batch);
    SkipFindsFirstFree(taken, gap.start, gap, batch);
    AssignmentKeys(idle, cursor, gap.end, batch, taken);
    if cursor == gap.start {
      AssignmentIsFresh(idle, cursor, gap, batch, taken);
      FirstGetsCursor(idle, cursor, gap.end, batch, taken);
    }
    GivenAreRequested(s, given, Scheduled(s, taken, idle, batch), gap.start);
  }

  lemma FirstGetsCursor(idle: seq<PeerId>, cursor: nat, end: nat, batch: nat, taken: seq<Range>)
    requires idle != [] && cursor < end && Distinct(idle)
    ensures var given := Assignment(idle, cursor, end, batch, taken);
            idle[0] in given && given[idle[0]].start == cursor
  {
    AssignmentKeys(idle[1..], Skip(taken, ChunkEnd(cursor, batch, end)), end, batch, taken);
  }

  /** Draining a chunk strictly shrinks the gap and keeps everything else in it. */
  lemma DrainOneKeepsTidy<Item, C>(s: Session<Item, C>, batch: nat)
    requires batch > 0 && Tidy(s, batch) && Contiguous(s)
    ensures Tidy(DrainOne(s), batch) && s.gap.value.start < DrainOne(s).gap.value.start
  {
    var gap, start := s.gap.value, s.gap.value.start;
    ChunkEndOnGrid(start, gap, batch);
    forall k | k in s.fetched && k != start
      ensures s.fetched[start].end <= k
    {
      ChunksAreDisjoint(Range(start, s.fetched[start].end), Range(k, s.fetched[k].end), gap, batch);
    }
    forall p | p in s.inflight
      ensures s.fetched[start].end <= s.inflight[p].start
    {
      ChunksAreDisjoint(Range(start, s.fetched[start].end), s.inflight[p], gap, batch);
    }
  }

  /** After draining, the gap begins at a chunk that is not held, and held chunks can no longer block it from below. */
  lemma {:induction false} DrainKeepsTidy<Item, C>(s: Session<Item, C>, batch: nat)
    requires batch > 0 && Tidy(s, batch)
    ensures Tidy(DrainAll(s), batch)
    ensures s.gap.Some? ==>
            var s' := DrainAll(s);
            && s'.gap.Some? && s'.gap.value.start !in s'.fetched && s'.gap.value.end == s.gap.value.end
            && s.gap.value.start <= s'.gap.value.start && (s.gap.value.start in s.fetched ==> s.gap.value.start < s'.gap.value.start)
    decreases s.fetched.Keys
  {
    if Contiguous(s) {
      DrainOneKeepsTidy(s, batch);
      DrainKeepsTidy(DrainOne(s), batch);
    }
  }

  /** A response answers the request its peer has in flight. */
  predicate Answers<Item, C>(s: Session<Item, C>, e: Event<Item, C>) {
    e.Response? && s.anchor == Some(e.anchor) ==>
      e.peer in s.inflight && e.offset == s.inflight[e.peer].start && e.offset + |e.items| == s.inflight[e.peer].end
  }

  lemma SelectKeepsTidy<Item, C>(s: Session<Item, C>, s': Session<Item, C>, batch: nat)
    requires batch > 0 && Tidy(s, batch) && Selects(s, s')
    ensures Tidy(s', batch)
  {
    if exists c :: Best(s, c) && s' == Anchored(s, c) {
      var c :| Best(s, c) && s' == Anchored(s, c);
      assert Aligned(0, batch);
    }
  }

  lemma StepKeepsTidy<Item, C>(cfg: Config, s: Session<Item, C>, e: Event<Item, C>, s': Session<Item, C>)
    requires cfg.batch > 0 && Tidy(s, cfg.batch) && Step(cfg, s, e, s') && Answers(s, e)
    ensures Tidy(s', cfg.batch)
  {
    match e
    case Offered(peer, anchor, itemsCount) => SelectKeepsTidy(Recorded(s, peer, anchor, itemsCount), s', cfg.batch);
    case Select => SelectKeepsTidy(s, s', cfg.batch);
    case Drain => DrainKeepsTidy(s, cfg.batch);
    case Schedule(taken, idle) => ScheduleKeepsTidy(s, cfg.leader, taken, idle, cfg.batch);
    case _ =>
  }

  /** In every run in which each response answers its peer's current request, the session stays tidy. */
  lemma {:induction false} FetchesStayTidy<Item, C>(cfg: Config, states: seq<Session<Item, C>>, events: seq<Event<Item, C>>, n: nat)
    requires cfg.batch > 0 && IsRun(cfg, states, events) && n < |states|
    requires forall i :: 0 <= i < |events| ==> Answers(states[i], events[i])
    ensures Tidy(states[n], cfg.batch)
  {
    if n > 0 {
      FetchesStayTidy(cfg, states, events, n - 1);
      assert StepAt(cfg, states, events, n - 1) && Answers(states[n - 1], events[n - 1]);
      StepKeepsTidy(cfg, states[n - 1], events[n - 1], states[n]);
    }
  }

  // ---------------------------------------------------------------- a late response

  lemma {:induction false} DrainAllKeys<Item, C>(s: Session<Item, C>)
    ensures DrainAll(s).fetched.Keys <= s.fetched.Keys
    decreases s.fetched.Keys
  {
    if Contiguous(s) {
      DrainAllKeys(DrainOne(s));
    }
  }

  /** A held chunk at the start of the gap is drained exactly when no chunk below the gap is held. */
  lemma DrainExactCondition<Item, C>(s: Session<Item, C>)
    requires HasGap(s) && s.gap.value.start in s.fetched
    ensures Drained(s) != s <==> forall k :: k in s.fetched ==> s.gap.value.start <= k
  {
    if Contiguous(s) {
      DrainAllKeys(DrainOne(s));
      assert s.gap.value.start !in DrainOne(s).fetched.Keys;
    }
  }

  /** A chunk is held that begins below the gap, and items are still missing. */
  ghost predicate Blocked<Item, C>(s: Session<Item, C>) {
    s.anchor.Some? && HasGap(s) && exists k :: k in s.fetched && k < s.gap.value.start
  }

  /** A late response blocks the session, whatever else it holds. */
  lemma LateResponseBlocks<Item, C>(s: Session<Item, C>, peer: PeerId, anchor: Cursor, offset: nat, items: seq<Item>)
    requires s.anchor == Some(anchor) && HasGap(s) && offset < s.gap.value.start
    ensures Blocked(Responded(s, peer, anchor, offset, items))
  {
    assert offset in Responded(s, peer, anchor, offset, items).fetched;
  }

  lemma BlockedStep<Item, C>(cfg: Config, s: Session<Item, C>, e: Event<Item, C>, s': Session<Item, C>)
    requires Blocked(s) && Step(cfg, s, e, s')
    ensures s'.anchor.Some?
    ensures if s'.anchor == s.anchor then Blocked(s') && s'.gap == s.gap else s.anchor.value.index < s'.anchor.value.index
  {
    var k :| k in s.fetched && k < s.gap.value.start;
    if s'.anchor == s.anchor {
      assert k in s'.fetched;
    }
  }

  /**
   * Once blocked, a session never gets any further with its anchor: whatever happens, up to the first higher anchor it
   * has the same gap and is not complete.
   */
  lemma {:induction false} BlockedForGood<Item, C>(cfg: Config, states: seq<Session<Item, C>>, events: seq<Event<Item, C>>, i: nat, j: nat)
    requires Steps(cfg, states, events) && i <= j < |states| && Blocked(states[i])
    ensures states[j].anchor.Some?
    ensures if states[j].anchor == states[i].anchor
            then Blocked(states[j]) && states[j].gap == states[i].gap && !Complete(states[j])
            else states[i].anchor.value.index < states[j].anchor.value.index
  {
    if i < j {
      BlockedForGood(cfg, states, events, i, j - 1);
      assert StepAt(cfg, states, events, j - 1);
      if states[j - 1].anchor == states[i].anchor {
        BlockedStep(cfg, states[j - 1], events[j - 1], states[j]);
      } else {
        AnchorsRise(cfg, states[j - 1], events[j - 1], states[j]);
      }
    }
  }

  lemma AnchorsRise<Item, C>(cfg: Config, s: Session<Item, C>, e: Event<Item, C>, s': Session<Item, C>)
    requires s.anchor.Some? && Step(cfg, s, e, s')
    ensures s'.anchor.Some? && (s'.anchor == s.anchor || s.anchor.value.index < s'.anchor.value.index)
  {
    if e.Drain? {
      DrainKeepsRest(s);
    }
  }
}
