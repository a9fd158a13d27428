/**
 * A run of honest peers that ends blocked: a peer is asked for a chunk and times out, another one delivers it, and then
 * the answer of the first arrives after all.
 */
module LateResponse {
  import opened RaftTypes
  import opened Sorting
  import opened SnapshotProtocol
  import opened SyncSession
  import opened FetchScheduling

  const CFG: Config := Config(0, 1)
  const ANCHOR: Cursor := Cursor(1, 1)

  /** The session at the anchor, with what changes along the run. */
  function At<Item, C>(start: nat, peers: set<PeerId>, available: set<PeerId>, inflight: map<PeerId, Range>,
                       fetched: map<nat, Chunk<Item>>, accumulated: seq<Item>): Session<Item, C>
  {
    Session(Some(ANCHOR), Some(Range(start, 2)), map[ANCHOR := Candidate(2, peers)], [], available, inflight, fetched, accumulated)
  }

  function States<Item, C>(x: Item): seq<Session<Item, C>> {
    var chunk := map[0 := Chunk(1, [x])];
    [ Session(None, None, map[], [], {}, map[], map[], []),
      At(0, {1}, {1}, map[], map[], []),
      At(0, {1}, {1}, map[1 := Range(0, 1)], map[], []),
      At(0, {1}, {}, map[], map[], []),
      At(0, {1, 2}, {2}, map[], map[], []),
      At(0, {1, 2}, {2}, map[2 := Range(0, 1)], map[], []),
      At(0, {1, 2}, {2}, map[], chunk, []),
      At(1, {1, 2}, {2}, map[], map[], [x]),
      At(1, {1, 2}, {2}, map[], chunk, [x]) ]
  }

  function Events<Item, C>(x: Item): seq<Event<Item, C>> {
    [ Offered(1, ANCHOR, 2), Schedule([], [1]), TimedOut({1}), Offered(2, ANCHOR, 2), Schedule([], [2]),
      Response(2, ANCHOR, 0, [x]), Drain, Response(1, ANCHOR, 0, [x]) ]
  }

  lemma FirstOffer<Item, C>(s: Session<Item, C>, s': Session<Item, C>)
    requires s == Session(None, None, map[], [], {}, map[], map[], []) && s' == At(0, {1}, {1}, map[], map[], [])
    ensures Step(CFG, s, Offered(1, ANCHOR, 2), s')
  {
    var r := Recorded(s, 1, ANCHOR, 2);
    assert {} + {1} == {1};
    assert r.candidates == map[ANCHOR := Candidate(2, {1})];
    assert Best(r, ANCHOR) && s' == Anchored(r, ANCHOR);
  }

  lemma SecondOffer<Item, C>(s: Session<Item, C>, s': Session<Item, C>)
    requires s == At(0, {1}, {}, map[], map[], []) && s' == At(0, {1, 2}, {2}, map[], map[], [])
    ensures Step(CFG, s, Offered(2, ANCHOR, 2), s')
  {
    var r := Recorded(s, 2, ANCHOR, 2);
    assert {1} + {2} == {1, 2};
    assert r.candidates == map[ANCHOR := Candidate(2, {1, 2})];
    assert forall c :: !Usable(r, c);
  }

  lemma AskPeer<Item, C>(peers: set<PeerId>, p: PeerId, s: Session<Item, C>, s': Session<Item, C>)
    requires s == At(0, peers, {p}, map[], map[], []) && s' == At(0, peers, {p}, map[p := Range(0, 1)], map[], [])
    ensures Step(CFG, s, Schedule([], [p]), s')
  {
    assert forall r :: !Taken(s, r);
    assert Elements([p]) == {p} == s.available - s.inflight.Keys;
    assert Assignment([p], 0, 2, 1, []) == map[p := Range(0, 1)] + map[];
    assert map[] + map[p := Range(0, 1)] == map[p := Range(0, 1)];
  }

  lemma GiveUp<Item, C>(s: Session<Item, C>, s': Session<Item, C>)
    requires s == At(0, {1}, {1}, map[1 := Range(0, 1)], map[], []) && s' == At(0, {1}, {}, map[], map[], [])
    ensures Step(CFG, s, TimedOut({1}), s')
  {
    assert map[1 := Range(0, 1)] - {1} == map[];
  }

  lemma Deliver<Item, C>(x: Item, s: Session<Item, C>, s': Session<Item, C>)
    requires s == At(0, {1, 2}, {2}, map[2 := Range(0, 1)], map[], [])
    requires s' == At(0, {1, 2}, {2}, map[], map[0 := Chunk(1, [x])], [])
    ensures Step(CFG, s, Response(2, ANCHOR, 0, [x]), s')
  {
    assert map[2 := Range(0, 1)] - {2} == map[];
  }

  lemma DrainIt<Item, C>(x: Item, s: Session<Item, C>, s': Session<Item, C>)
    requires s == At(0, {1, 2}, {2}, map[], map[0 := Chunk(1, [x])], []) && s' == At(1, {1, 2}, {2}, map[], map[], [x])
    ensures Step(CFG, s, Drain, s')
  {
    assert map[0 := Chunk(1, [x])] - {0} == map[];
    assert DrainOne(s) == s';
    assert DrainAll(s') == s';
  }

  lemma DeliverLate<Item, C>(x: Item, s: Session<Item, C>, s': Session<Item, C>)
    requires s == At(1, {1, 2}, {2}, map[], map[], [x])
    requires s' == At(1, {1, 2}, {2}, map[], map[0 := Chunk(1, [x])], [x])
    ensures Step(CFG, s, Response(1, ANCHOR, 0, [x]), s') && Blocked(s')
  {
    assert map[] - {1} == s.inflight;
    LateResponseBlocks(s, 1, ANCHOR, 0, [x]);
  }

  lemma EachStep<Item, C>(x: Item, i: nat)
    requires i < 8
    ensures Step(CFG, States<Item, C>(x)[i], Events<Item, C>(x)[i], States<Item, C>(x)[i + 1])
  {
    var states := States<Item, C>(x);
    match i
    case 0 => FirstOffer(states[0], states[1]);
    case 1 => AskPeer({1}, 1, states[1], states[2]);
    case 2 => GiveUp(states[2], states[3]);
    case 3 => SecondOffer(states[3], states[4]);
    case 4 => AskPeer({1, 2}, 2, states[4], states[5]);
    case 5 => Deliver(x, states[5], states[6]);
    case 6 => DrainIt(x, states[6], states[7]);
    case _ => DeliverLate(x, states[7], states[8]);
  }

  lemma StatesAreARun<Item, C>(x: Item)
    ensures IsRun(CFG, States<Item, C>(x), Events<Item, C>(x))
  {
    var states, events := States<Item, C>(x), Events<Item, C>(x);
    forall i | 0 <= i < |events|
      ensures StepAt(CFG, states, events, i)
    {
      EachStep<Item, C>(x, i);
    }
  }

  lemma AllAreHonest<Item, C>(x: Item, y: Item)
    ensures HonestEvents((c: Cursor) => [x, y], Events<Item, C>(x))
  {
    assert [x, y][0..1] == [x];
  }

  /**
   * All peers are honest, every response answers a request its peer was sent, and all but the last one answer it in
   * time; yet the session ends blocked.
   */
  lemma HonestPeersCanBlock<Item, C>(x: Item, y: Item)
    ensures IsRun(CFG, States<Item, C>(x), Events<Item, C>(x))
    ensures HonestEvents((c: Cursor) => [x, y], Events<Item, C>(x))
    ensures forall i :: 0 <= i < 7 ==> Answers(States<Item, C>(x)[i], Events<Item, C>(x)[i])
    ensures States<Item, C>(x)[2].inflight == map[1 := Range(0, 1)] && Events<Item, C>(x)[7] == Response(1, ANCHOR, 0, [x])
    ensures Blocked(States<Item, C>(x)[8])
  {
    StatesAreARun<Item, C>(x);
    AllAreHonest<Item, C>(x, y);
    DeliverLate(x, States<Item, C>(x)[7], States<Item, C>(x)[8]);
  }
}
