/**
 * A session of honest peers that cannot be finished: started by a heartbeat, it has nothing buffered when a stale offer
 * arrives, so it takes the anchor; the leader's next batch is then buffered beyond a hole.
 */
module StaleAnchor {
  import opened RaftTypes
  import opened FullLog
  import opened CatchUpBuffer
  import opened LogBatches
  import opened SnapshotProtocol
  import opened SyncSession
  import opened SnapshotProvider
  import opened CatchUp
  import M = MapMachine

  const CFG: Config := Config(0, 1)
  const ANCHOR: Cursor := Cursor(1, 1)
  const REQUEST: SnapshotRequest := SnapshotRequest(2, 0)
  const NEVER: SnapshotRequest -> bool := (r: SnapshotRequest) => false
  const OFFERED: Pending<Item> := Pending(REQUEST, ANCHOR, [])

  /** The first entry asked for a snapshot of the empty map, two more followed. */
  function TheLog(c: Command, d: Command): Log {
    [Entry(1, M.TakeSnapshot(REQUEST)), Entry(1, c), Entry(1, d)]
  }

  /** Peer 1 was handed the snapshot and serves it to peer 2. */
  function Peers(): Servers {
    map[1 := [Serve([OFFERED], 1, NEVER)]]
  }

  function States(d: Command): seq<Session<Item, Command>> {
    var offered := map[ANCHOR := Candidate(0, {1})];
    [ Session(None, None, map[], [], {}, map[], map[], []),
      Session(Some(ANCHOR), Some(Range(0, 0)), offered, [], {1}, map[], map[], []),
      Session(Some(ANCHOR), Some(Range(0, 0)), offered, [Buffered(3, Entry(1, d))], {1}, map[], map[], []) ]
  }

  function Events(d: Command): seq<Event<Item, Command>> {
    [Offered(1, ANCHOR, 0), Buffer(Cursor(1, 2), [Entry(1, d)])]
  }

  lemma AskingChangesNothing(batch: Log)
    requires batch == [Entry(1, M.TakeSnapshot(REQUEST))]
    ensures M.Run(map[], CommandsOf(batch)) == map[]
  {
    var commands := CommandsOf(batch);
    assert commands[..0] == [];
  }

  function FirstKey(items: seq<Item>): Option<M.Key> {
    if items == [] then None else Some(items[0].key)
  }

  lemma NothingToEnumerate(order: Order)
    requires Enumeration(order)
    ensures order(map[]) == []
  {
    var nothing: Data := map[];
    var items := order(nothing);
    assert M.Enumerates(items, nothing);
    assert FirstKey(items).None?;
  }

  lemma OfferIsLabelled(c: Command, d: Command, order: Order)
    requires Enumeration(order)
    ensures Labelled(TheLog(c, d), order, OFFERED)
  {
    var batches := [TheLog(c, d)[..1]];
    assert batches[..0] == [];
    assert Joined(batches) == TheLog(c, d)[..1];
    AskingChangesNothing(batches[0]);
    assert M.Applied(batches) == map[];
    NothingToEnumerate(order);
    assert Provided(TheLog(c, d), order, batches, OFFERED);
  }

  lemma OfferIsMade()
    ensures Offers(Peers()[1], 0, ANCHOR, 0)
  {
    var pending := [OFFERED];
    assert pending[..0] == [];
    assert OffersFor(pending, 1, NEVER) == [Offer(2, ANCHOR, 0)];
    assert OffersFor(pending, 1, NEVER)[0] == Offer(2, ANCHOR, 0);
  }

  lemma StatesAreARun(d: Command)
    ensures IsRun(CFG, States(d), Events(d))
  {
    var states, events := States(d), Events(d);
    var r := Recorded(states[0], 1, ANCHOR, 0);
    assert {} + {1} == {1};
    assert r.candidates == map[ANCHOR := Candidate(0, {1})];
    assert Best(r, ANCHOR) && states[1] == Anchored(r, ANCHOR);
    assert StepAt(CFG, states, events, 0);
    assert [] + Numbered(2, [Entry(1, d)]) == [Buffered(3, Entry(1, d))];
    assert StepAt(CFG, states, events, 1);
  }

  lemma EventsAreSent(c: Command, d: Command)
    ensures forall i :: 0 <= i < 2 ==> Sent(TheLog(c, d), Peers(), Events(d)[i])
    ensures Sent(TheLog(c, d), Peers(), Buffer(Cursor(1, 2), []))
  {
    OfferIsMade();
    var log := TheLog(c, d);
    assert log[2..2] == [] && log[2..3] == [Entry(1, d)];
  }

  /**
   * The session hears only from the leader and from honest providers and is complete, yet its tail does not adjoin the
   * anchor, so that finishing it stops the node.
   */
  lemma HonestSessionCanStop(c: Command, d: Command, order: Order)
    requires Enumeration(order)
    ensures HearsOnly(TheLog(c, d), order, Peers(), CFG, States(d), Events(d), Cursor(1, 2), [])
    ensures var s := States(d)[2];
            Complete(s) && s.anchor == Some(ANCHOR) && !Adjoins(Tail(s.buffered, ANCHOR.index), ANCHOR.index)
  {
    OfferIsLabelled(c, d, order);
    StatesAreARun(d);
    EventsAreSent(c, d);
    assert Numbered<Command>(2, []) == [];
    AdjoinsExactly(States(d)[2].buffered, 2, 1);
  }
}
