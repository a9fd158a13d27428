/**
 * The catching-up side of snapshot transfer as a step relation: offers, responses, departures, timeouts and buffered
 * entries arrive in any order, and each poll selects an anchor, drains fetched chunks and schedules fetches.
 */
module SyncSession {
  import opened RaftTypes
  import opened CatchUpBuffer
  import opened Sorting
  import opened SnapshotProtocol

  datatype Candidate = Candidate(itemsCount: nat, peers: set<PeerId>)
  datatype Chunk<+Item> = Chunk(end: nat, items: seq<Item>)

  datatype Session<+Item, +C> = Session(
    anchor: Option<Cursor>,
    gap: Option<Range>,
    candidates: map<Cursor, Candidate>,
    buffered: seq<Buffered<C>>,
    available: set<PeerId>,
    inflight: map<PeerId, Range>,
    fetched: map<nat, Chunk<Item>>,
    accumulated: seq<Item>)

  function Started<Item, C>(position: Cursor, entries: seq<Entry<C>>): Session<Item, C> {
    Session(None, None, map[], Numbered(position.index, entries), {}, map[], map[], [])
  }

  predicate Complete<Item, C>(s: Session<Item, C>) {
    s.anchor.Some? && s.gap.Some? && s.gap.value.end <= s.gap.value.start
  }

  // ---------------------------------------------------------------- the anchor

  /** An anchor is usable if it leaves no hole before the buffered entries and is ahead of the current one. */
  predicate Usable<Item, C>(s: Session<Item, C>, c: Cursor) {
    && c in s.candidates
    && (s.buffered != [] ==> s.buffered[0].index <= c.index)
    && (s.anchor.Some? ==> s.anchor.value.index < c.index)
  }

  predicate Best<Item, C>(s: Session<Item, C>, c: Cursor) {
    Usable(s, c) && forall d :: d in s.candidates && Usable(s, d) ==> d.index <= c.index
  }

  /** Starts over at anchor `c`; the first anchor adds its peers, a later one replaces them. */
  function Anchored<Item, C>(s: Session<Item, C>, c: Cursor): Session<Item, C>
    requires c in s.candidates
  {
    var gap := Some(Range(0, s.candidates[c].itemsCount));
    if s.anchor.None? then s.(anchor := Some(c), gap := gap, available := s.available + s.candidates[c].peers)
    else s.(anchor := Some(c), gap := gap, available := s.candidates[c].peers, inflight := map[], fetched := map[], accumulated := [])
  }

  ghost predicate Selects<Item, C>(s: Session<Item, C>, s': Session<Item, C>) {
    || (exists c :: Best(s, c) && s' == Anchored(s, c))
    || ((forall c :: !Usable(s, c)) && s' == s)
  }

  // ---------------------------------------------------------------- messages and departures

  function Recorded<Item, C>(s: Session<Item, C>, peer: PeerId, anchor: Cursor, itemsCount: nat): Session<Item, C> {
    var known := if anchor in s.candidates then s.candidates[anchor] else Candidate(itemsCount, {});
    s.(candidates := s.candidates[anchor := known.(peers := known.peers + {peer})],
       available := if s.anchor == Some(anchor) then s.available + {peer} else s.available)
  }

  function Responded<Item, C>(s: Session<Item, C>, peer: PeerId, anchor: Cursor, offset: nat, items: seq<Item>): Session<Item, C> {
    if s.anchor != Some(anchor) then s
    else s.(inflight := s.inflight - {peer}, fetched := s.fetched[offset := Chunk(offset + |items|, items)])
  }

  function Departed<Item, C>(s: Session<Item, C>, peer: PeerId): Session<Item, C> {
    s.(available := s.available - {peer}, inflight := s.inflight - {peer},
       candidates := map c | c in s.candidates :: s.candidates[c].(peers := s.candidates[c].peers - {peer}))
  }

  function GaveUp<Item, C>(s: Session<Item, C>, peers: set<PeerId>): Session<Item, C> {
    s.(available := s.available - peers, inflight := s.inflight - peers)
  }

  function Extended<Item, C>(s: Session<Item, C>, position: Cursor, entries: seq<Entry<C>>): Session<Item, C> {
    s.(buffered := s.buffered + Numbered(position.index, entries))
  }

  // ---------------------------------------------------------------- draining

  /** The lowest fetched chunk begins where the gap begins. */
  predicate Contiguous<Item, C>(s: Session<Item, C>) {
    s.gap.Some? && s.gap.value.start in s.fetched && forall k :: k in s.fetched ==> s.gap.value.start <= k
  }

  function DrainOne<Item, C>(s: Session<Item, C>): Session<Item, C>
    requires s.gap.Some? && s.gap.value.start in s.fetched
  {
    var start := s.gap.value.start;
    s.(fetched := s.fetched - {start},
       accumulated := s.accumulated + s.fetched[start].items,
       gap := Some(Range(s.fetched[start].end, s.gap.value.end)))
  }

  function DrainAll<Item, C>(s: Session<Item, C>): Session<Item, C>
    decreases s.fetched.Keys
  {
    if Contiguous(s) then DrainAll(DrainOne(s)) else s
  }

  /** Draining moves items and nothing else. */
  lemma {:induction false} DrainKeepsRest<Item, C>(s: Session<Item, C>)
    ensures var s' := DrainAll(s); s'.buffered == s.buffered && s'.anchor == s.anchor && s'.candidates == s.candidates
    decreases s.fetched.Keys
  {
    if Contiguous(s) {
      DrainKeepsRest(DrainOne(s));
    }
  }

  predicate HasGap<Item, C>(s: Session<Item, C>) {
    s.gap.Some? && s.gap.value.start < s.gap.value.end
  }

  function Drained<Item, C>(s: Session<Item, C>): Session<Item, C> {
    if HasGap(s) then DrainAll(s) else s
  }

  // ---------------------------------------------------------------- scheduling

  function StartOf(r: Range): int {
    r.start
  }

  ghost predicate Taken<Item, C>(s: Session<Item, C>, r: Range) {
    (exists p :: p in s.inflight && s.inflight[p] == r) || (r.start in s.fetched && s.fetched[r.start].end == r.end)
  }

  /** The ranges in flight or fetched, by start. */
  ghost predicate ListsTaken<Item, C>(s: Session<Item, C>, taken: seq<Range>) {
    && SortedBy(taken, StartOf)
    && (forall i :: 0 <= i < |taken| ==> Taken(s, taken[i]))
    && (forall r :: Taken(s, r) ==> r in taken)
  }

  /** The available peers with no request in flight, the leader last. */
  ghost predicate ListsIdle<Item, C>(s: Session<Item, C>, leader: PeerId, idle: seq<PeerId>) {
    && Distinct(idle) && Elements(idle) == s.available - s.inflight.Keys
    && forall i :: 0 <= i < |idle| && idle[i] == leader ==> i == |idle| - 1
  }

  /** Walks over the taken ranges that cover the cursor. */
  function Skip(taken: seq<Range>, cursor: nat): nat {
    if taken == [] then cursor
    else Skip(taken[1..], if taken[0].start <= cursor < taken[0].end then taken[0].end else cursor)
  }

  function ChunkEnd(cursor: nat, batch: nat, end: nat): nat {
    if cursor + batch <= end then cursor + batch else end
  }

  /** The chunks given to idle peers in turn, from `cursor` on. */
  function Assignment(idle: seq<PeerId>, cursor: nat, end: nat, batch: nat, taken: seq<Range>): map<PeerId, Range> {
    if idle == [] || end <= cursor then map[]
    else
      var next := ChunkEnd(cursor, batch, end);
      map[idle[0] := Range(cursor, next)] + Assignment(idle[1..], Skip(taken, next), end, batch, taken)
  }

  function Scheduled<Item, C>(s: Session<Item, C>, taken: seq<Range>, idle: seq<PeerId>, batch: nat): Session<Item, C> {
    if !HasGap(s) || s.anchor.None? then s
    else
      s.(inflight := s.inflight + Assignment(idle, Skip(taken, s.gap.value.start), s.gap.value.end, batch, taken))
  }

  // ---------------------------------------------------------------- runs

  datatype Event<+Item, +C> =
    | Offered(peer: PeerId, anchor: Cursor, itemsCount: nat)
    | Response(peer: PeerId, anchor: Cursor, offset: nat, items: seq<Item>)
    | Gone(peer: PeerId)
    | TimedOut(peers: set<PeerId>)
    | Select
    | Drain
    | Schedule(taken: seq<Range>, idle: seq<PeerId>)
    | Buffer(position: Cursor, entries: seq<Entry<C>>)

  /** What all peers of the group agree on. */
  datatype Config = Config(leader: PeerId, batch: nat)

  ghost predicate Step<Item, C>(cfg: Config, s: Session<Item, C>, e: Event<Item, C>, s': Session<Item, C>) {
    match e
    case Offered(peer, anchor, itemsCount) => Selects(Recorded(s, peer, anchor, itemsCount), s')
    case Response(peer, anchor, offset, items) => s' == Responded(s, peer, anchor, offset, items)
    case Gone(peer) => s' == Departed(s, peer)
    case TimedOut(peers) => s' == GaveUp(s, peers)
    case Select => Selects(s, s')
    case Drain => s' == Drained(s)
    case Schedule(taken, idle) =>
      ListsTaken(s, taken) && ListsIdle(s, cfg.leader, idle) && s' == Scheduled(s, taken, idle, cfg.batch)
    case Buffer(position, entries) => s' == Extended(s, position, entries)
  }

  ghost predicate StepAt<Item, C>(cfg: Config, states: seq<Session<Item, C>>, events: seq<Event<Item, C>>, i: nat)
    requires i < |events| && |states| == |events| + 1
  {
    Step(cfg, states[i], events[i], states[i + 1])
  }

  /** A run: each event leads from its state to the next. */
  ghost predicate Steps<Item, C>(cfg: Config, states: seq<Session<Item, C>>, events: seq<Event<Item, C>>) {
    |states| == |events| + 1 && forall i :: 0 <= i < |events| ==> StepAt(cfg, states, events, i)
  }

  ghost predicate IsRun<Item, C>(cfg: Config, states: seq<Session<Item, C>>, events: seq<Event<Item, C>>) {
    Steps(cfg, states, events) && states[0] == Session(None, None, map[], states[0].buffered, {}, map[], map[], [])
  }

  // ---------------------------------------------------------------- reassembly safety

  /** Offers and responses describe the snapshots they name; duplicates and reorderings are allowed. */
  predicate HonestEvent<Item(==), C>(truth: Cursor -> seq<Item>, e: Event<Item, C>) {
    match e
    case Offered(_, anchor, itemsCount) => HonestOffer(truth, anchor, itemsCount)
    case Response(_, anchor, offset, items) => HonestItems(truth, anchor, offset, items)
    case _ => true
  }

  ghost predicate HonestEvents<Item, C>(truth: Cursor -> seq<Item>, events: seq<Event<Item, C>>) {
    forall i :: 0 <= i < |events| ==> HonestEvent(truth, events[i])
  }

  ghost predicate HonestCandidates<Item, C>(truth: Cursor -> seq<Item>, s: Session<Item, C>) {
    forall c :: c in s.candidates ==> s.candidates[c].itemsCount == |truth(c)|
  }

  ghost predicate HonestChunks<Item, C>(truth: Cursor -> seq<Item>, s: Session<Item, C>, a: Cursor) {
    forall k :: k in s.fetched ==> s.fetched[k].end == k + |s.fetched[k].items| && HonestItems(truth, a, k, s.fetched[k].items)
  }

  /** What has been accumulated is the snapshot of the current anchor up to where the gap begins. */
  ghost predicate Assembled<Item, C>(truth: Cursor -> seq<Item>, s: Session<Item, C>) {
    match s.anchor
    case None => s.gap.None? && s.inflight == map[] && s.fetched == map[] && s.accumulated == []
    case Some(a) =>
      && s.gap.Some? && s.gap.value.start <= s.gap.value.end == |truth(a)|
      && s.accumulated == truth(a)[..s.gap.value.start]
      && HonestChunks(truth, s, a)
  }

  ghost predicate Safe<Item, C>(truth: Cursor -> seq<Item>, s: Session<Item, C>) {
    HonestCandidates(truth, s) && Assembled(truth, s)
  }

  lemma SelectingIsSafe<Item, C>(truth: Cursor -> seq<Item>, s: Session<Item, C>, s': Session<Item, C>)
    requires Safe(truth, s) && Selects(s, s')
    ensures Safe(truth, s')
  {
    if exists c :: Best(s, c) && s' == Anchored(s, c) {
      var c :| Best(s, c) && s' == Anchored(s, c);
      assert truth(c)[..0] == [];
    }
  }

  lemma DrainingOneIsSafe<Item, C>(truth: Cursor -> seq<Item>, s: Session<Item, C>)
    requires Safe(truth, s) && s.gap.Some? && s.gap.value.start in s.fetched
    ensures Safe(truth, DrainOne(s))
  {
    var whole, start := truth(s.anchor.value), s.gap.value.start;
    var items := s.fetched[start].items;
    assert whole[..start] + whole[start..start + |items|] == whole[..start + |items|];
  }

  lemma {:induction false} DrainingIsSafe<Item, C>(truth: Cursor -> seq<Item>, s: Session<Item, C>)
    requires Safe(truth, s)
    ensures Safe(truth, DrainAll(s))
    decreases s.fetched.Keys
  {
    if Contiguous(s) {
      DrainingOneIsSafe(truth, s);
      DrainingIsSafe(truth, DrainOne(s));
    }
  }

  lemma StepIsSafe<Item, C>(truth: Cursor -> seq<Item>, cfg: Config, s: Session<Item, C>, e: Event<Item, C>, s': Session<Item, C>)
    requires Safe(truth, s) && Step(cfg, s, e, s') && HonestEvent(truth, e)
    ensures Safe(truth, s')
  {
    match e
    case Offered(peer, anchor, itemsCount) => SelectingIsSafe(truth, Recorded(s, peer, anchor, itemsCount), s');
    case Select => SelectingIsSafe(truth, s, s');
    case Drain => DrainingIsSafe(truth, s);
    case _ =>
  }

  /**
   * For every interleaving of honest offers and responses, however duplicated or reordered, with departures, timeouts
   * and anchor upgrades, the accumulated items are the current anchor's snapshot up to the gap, and the whole of it
   * once the session is complete.
   */
  lemma {:induction false} ReassemblySafety<Item, C>(truth: Cursor -> seq<Item>, cfg: Config, states: seq<Session<Item, C>>,
                                                   events: seq<Event<Item, C>>, n: nat)
    requires IsRun(cfg, states, events) && HonestEvents(truth, events) && n < |states|
    ensures Safe(truth, states[n])
    ensures Complete(states[n]) ==> states[n].accumulated == truth(states[n].anchor.value)
  {
    if n > 0 {
      ReassemblySafety(truth, cfg, states, events, n - 1);
      assert StepAt(cfg, states, events, n - 1) && HonestEvent(truth, events[n - 1]);
      StepIsSafe(truth, cfg, states[n - 1], events[n - 1], states[n]);
    }
    if Complete(states[n]) {
      var whole := truth(states[n].anchor.value);
      assert whole[..|whole|] == whole;
    }
  }
}
