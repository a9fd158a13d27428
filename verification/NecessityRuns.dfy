/**
 * Why the hypotheses on runs are there. For each of them, a run that keeps all the others and breaks what is proved
 * with it: Log Matching, exactly-once application, the backing of commits, or one quorum per term.
 */
module NecessityRuns {
  import opened RaftTypes
  import opened FullLog
  import opened CatchUpBuffer
  import opened AppendPlacement
  import opened RaftProtocol
  import opened LogMatching
  import opened TruthfulCredit
  import opened CommitAgreement
  import opened WitnessRuns
  import E = ElectionSafety
  import VC = VotingCommittee

  // ---------------------------------------------------------------- partial polling and rival leaders

  const RIVALS: Rules := ALL.(oneLeader := false)

  /** Two nodes that poll only themselves both reach quorum in term 1. */
  lemma PartialPollingGivesTwoQuorums() returns (start: System, steps: seq<Taken>)
    ensures Run(start, steps) && AdmittedUpTo(start, steps, |steps|, ALL)
    ensures var s := StateAt(start, steps, |steps|); E.ReachesQuorum(s, 0, 1) && E.ReachesQuorum(s, 1, 1)
  {
    var t := Begin(ALL);
    t := Alone(t, ALL, 0);
    t := Alone(t, ALL, 1);
    assert {} + {0} == {0} && {} + {1} == {1};
    start, steps := t.start, t.steps;
  }

  /** Both lead term 1, and their logs differ at an entry of the same index and term. */
  lemma RivalsBreakLogMatching(x: Command, y: Command) returns (start: System, steps: seq<Taken>)
    requires x != y
    ensures Run(start, steps) && AdmittedUpTo(start, steps, |steps|, RIVALS)
    ensures var s := StateAt(start, steps, |steps|);
            && 0 in s.nodes && 1 in s.nodes
            && var a, b := s.nodes[0].log, s.nodes[1].log;
               |a| == |b| == 1 && a[0].term == b[0].term && a[..1] != b[..1]
  {
    var t := Begin(RIVALS);
    t := Alone(t, RIVALS, 0);
    t := LeadsAlone(t, RIVALS, 0, 1, x);
    t := FlushesAlone(t, RIVALS, 0, 1, x, [], {});
    t := RivalFollows(t, x, y);
    start, steps := t.start, t.steps;
    assert [Entry(1, x)][..1][0] != [Entry(1, y)][..1][0];
  }

  lemma RivalFollows(t: Trace, x: Command, y: Command) returns (t': Trace)
    requires Reached(t, RIVALS) && Holds(t.world, LoneLeader(0, 1, [], [] + [Entry(1, x)]), Fresh(false), Fresh(false))
    ensures Reached(t', RIVALS) && Holds(t'.world, LoneLeader(0, 1, [], [Entry(1, x)]), LoneLeader(1, 1, [], [Entry(1, y)]), Fresh(false))
  {
    t' := Alone(t, RIVALS, 1);
    t' := LeadsAlone(t', RIVALS, 1, 1, y);
    t' := FlushesAlone(t', RIVALS, 1, 1, y, [], {});
    assert [] + [Entry(1, x)] == [Entry(1, x)] && [] + [Entry(1, y)] == [Entry(1, y)];
  }

  // ---------------------------------------------------------------- truncating what is committed

  const TRUNCATING: Rules := ALL.(keepsCommitted := false)

  /** Node 2, alone, leads term 2 with `y` and sends it to node 0. */
  lemma SendFirst(t: Trace, h: Rules, n0: Node, n1: Node, y: Command) returns (t': Trace)
    requires Reached(t, h) && t.world.logs.Keys == {1} && Holds(t.world, n0, n1, Fresh(false))
    ensures Reached(t', h) && Packet(2, 0, Batch(2, 2, ZERO, y, 0)) in t'.world.net && t'.world.logs.Keys == {1, 2}
    ensures Holds(t'.world, n0, n1, LoneLeader(2, 2, [], [Entry(2, y)])) && t'.world.logs[2] == [Entry(2, y)]
  {
    t' := Alone(t, h, 2);
    t' := Alone(t', h, 2);
    t' := LeadsAlone(t', h, 2, 2, y);
    t' := FlushesAlone(t', h, 2, 2, y, [], {0});
    assert [] + [Entry(2, y)] == [Entry(2, y)];
  }

  /** Node 0 after it gave up its committed `x` for `y`. */
  function Overwritten(x: Command, y: Command): Node {
    Node(false, 2, Follower(Some(2), None), Some(Cast(1, 0)), [Entry(2, y)], 0, 1, First(x))
  }

  lemma Overwrites(x: Command, y: Command)
    ensures NodeStep(0, LoneLeader(0, 1, [], First(x)), Receive(0, 2, Batch(2, 2, ZERO, y, 0), NO_ENV), Overwritten(x, y),
                     {Packet(0, 2, AppendEntriesResponse(2, Granted, 1))})
  {
    var batch := [Entry(2, y)];
    assert First(x)[..1] == First(x);
    assert Reconciled(First(x), 0, ZERO, batch) == [];
    assert Push([], 0, 1, batch[0]) == batch;
    assert AppendMissing(batch, 0, 2, batch[1..]) == batch;
    assert AppendMissing([], 0, 1, batch) == batch;
    assert Accepted(First(x), 0, ZERO, batch) == batch;
  }

  /** A node, alone, leads term 1 and commits `x`. */
  lemma CommitsAlone(h: Rules, x: Command) returns (t: Trace)
    ensures Reached(t, h) && t.world.logs.Keys == {1} && t.world.offers == {} && t.world.logs[1] == First(x)
    ensures Holds(t.world, LoneLeader(0, 1, [], First(x)), Fresh(false), Fresh(false))
  {
    t := Begin(h);
    t := Alone(t, h, 0);
    t := LeadsAlone(t, h, 0, 1, x);
    t := FlushesAlone(t, h, 0, 1, x, [], {});
    assert [] + [Entry(1, x)] == First(x);
  }

  /** A node's machine has been fed an entry that its log no longer holds. */
  lemma TruncationBreaksApplication(x: Command, y: Command) returns (start: System, steps: seq<Taken>)
    ensures Run(start, steps) && AdmittedUpTo(start, steps, |steps|, TRUNCATING)
    ensures var s := StateAt(start, steps, |steps|);
            && 0 in s.nodes
            && var n := s.nodes[0]; n.committed == 1 <= |n.log| && n.applied != n.log[..1]
  {
    var t := CommitsAlone(TRUNCATING, x);
    t := SendFirst(t, TRUNCATING, LoneLeader(0, 1, [], First(x)), Fresh(false), y);
    Overwrites(x, y);
    t := Take(t, TRUNCATING, Receive(0, 2, Batch(2, 2, ZERO, y, 0), NO_ENV), Overwritten(x, y), {Packet(0, 2, AppendEntriesResponse(2, Granted, 1))});
    start, steps := t.start, t.steps;
    assert First(x)[0] != [Entry(2, y)][..1][0];
  }

  // ---------------------------------------------------------------- a batch for the start of a pruned log

  const PRUNED: Rules := ALL.(abovePruning := false)

  /** `n` entries of a term. */
  function Same(n: nat, term: Term, x: Command): Log {
    seq(n, i => Entry(term, x))
  }

  lemma SameGrows(n: nat, term: Term, x: Command)
    ensures Same(n, term, x) + [Entry(term, x)] == Same(n + 1, term, x)
  {
    var m, a := n + 1, Same(n, term, x) + [Entry(term, x)];
    assert |a| == |Same(m, term, x)| == m;
    assert forall i :: 0 <= i < m ==> a[i] == Same(m, term, x)[i];
  }

  /** A leader on its own appends one more entry. */
  lemma AppendsAlone(t: Trace, h: Rules, p: PeerId, term: Term, x: Command, n: nat) returns (t': Trace)
    requires Reached(t, h) && p in t.world.nodes && t.world.nodes[p] == LoneLeader(p, term, [], Same(n, term, x))
    requires term in t.world.logs && t.world.logs[term] == Same(n, term, x)
    ensures Reached(t', h) && t.world.net <= t'.world.net
    ensures t'.world.logs == t.world.logs[term := Same(n + 1, term, x)]
    ensures t'.world.nodes == t.world.nodes[p := LoneLeader(p, term, [], Same(n + 1, term, x))]
  {
    SameGrows(n, term, x);
    t' := QueuesAlone(t, h, p, term, x, Same(n, term, x));
    t' := FlushesAlone(t', h, p, term, x, Same(n, term, x), {});
  }

  /** And two more. */
  lemma AppendsTwo(t: Trace, h: Rules, p: PeerId, term: Term, x: Command, n: nat) returns (t': Trace)
    requires Reached(t, h) && p in t.world.nodes && t.world.nodes[p] == LoneLeader(p, term, [], Same(n, term, x))
    requires term in t.world.logs && t.world.logs[term] == Same(n, term, x)
    ensures Reached(t', h) && t.world.net <= t'.world.net
    ensures t'.world.logs == t.world.logs[term := Same(n + 2, term, x)]
    ensures t'.world.nodes == t.world.nodes[p := LoneLeader(p, term, [], Same(n + 2, term, x))]
  {
    t' := AppendsAlone(t, h, p, term, x, n);
    t' := AppendsAlone(t', h, p, term, x, n + 1);
  }

  function Pruned(x: Command): Node {
    LoneLeader(0, 1, [], Same(3, 1, x)).(base := 2)
  }

  /** Node 0, alone, commits three entries and prunes two of them. */
  lemma PrunesTwo(x: Command) returns (t: Trace)
    ensures Reached(t, PRUNED) && t.world.logs.Keys == {1}
    ensures Holds(t.world, Pruned(x), Fresh(false), Fresh(false))
  {
    t := CommitsAlone(PRUNED, x);
    assert First(x) == Same(1, 1, x);
    t := AppendsTwo(t, PRUNED, 0, 1, x, 1);
    t := Take(t, PRUNED, Prune(0, 2), Pruned(x), {});
  }

  /** Node 0 after it appended, at its end, an entry that was sent for the start. */
  function Misplaced(x: Command, y: Command): Node {
    Node(false, 2, Follower(Some(2), None), Some(Cast(1, 0)), Same(3, 1, x) + [Entry(2, y)], 2, 3, Same(3, 1, x))
  }

  lemma Misplaces(x: Command, y: Command)
    ensures NodeStep(0, Pruned(x), Receive(0, 2, Batch(2, 2, ZERO, y, 0), NO_ENV), Misplaced(x, y),
                     {Packet(0, 2, AppendEntriesResponse(2, Granted, 4))})
    ensures Reconciled(Same(3, 1, x), 2, ZERO, [Entry(2, y)]) == Same(3, 1, x)
  {
    var log, batch := Same(3, 1, x), [Entry(2, y)];
    var log' := log + batch;
    assert log[..3] == log;
    assert Push(log, 2, 1, batch[0]) == log';
    assert AppendMissing(log', 2, 2, batch[1..]) == log';
    assert AppendMissing(log, 2, 1, batch) == log';
    assert Accepted(log, 2, ZERO, batch) == log';
  }

  /** Two nodes hold an entry of the same index and term behind different ones. */
  lemma PrunedFollowerBreaksLogMatching(x: Command, y: Command) returns (start: System, steps: seq<Taken>)
    ensures Run(start, steps) && AdmittedUpTo(start, steps, |steps|, PRUNED)
    ensures var s := StateAt(start, steps, |steps|);
            && 0 in s.nodes && 2 in s.nodes
            && var a, b := s.nodes[0].log, s.nodes[2].log;
               4 <= |a| && 4 <= |b| && a[3].term == b[3].term && a[..4] != b[..4]
  {
    var t := PrunesTwo(x);
    t := SendFirst(t, PRUNED, Pruned(x), Fresh(false), y);
    t := Catches(t, x, y);
    start, steps := t.start, t.steps;
    assert (Same(3, 1, x) + [Entry(2, y)])[..4][0] != Same(5, 2, y)[..4][0];
  }

  lemma Catches(t: Trace, x: Command, y: Command) returns (t': Trace)
    requires Reached(t, PRUNED) && t.world.logs.Keys == {1, 2} && t.world.logs[2] == [Entry(2, y)]
    requires Packet(2, 0, Batch(2, 2, ZERO, y, 0)) in t.world.net
    requires Holds(t.world, Pruned(x), Fresh(false), LoneLeader(2, 2, [], [Entry(2, y)]))
    ensures Reached(t', PRUNED) && Holds(t'.world, Misplaced(x, y), Fresh(false), LoneLeader(2, 2, [], Same(5, 2, y)))
  {
    assert [Entry(2, y)] == Same(1, 2, y);
    t' := AppendsTwo(t, PRUNED, 2, 2, y, 1);
    t' := AppendsTwo(t', PRUNED, 2, 2, y, 3);
    Misplaces(x, y);
    t' := Take(t', PRUNED, Receive(0, 2, Batch(2, 2, ZERO, y, 0), NO_ENV), Misplaced(x, y), {Packet(0, 2, AppendEntriesResponse(2, Granted, 4))});
  }

  // ---------------------------------------------------------------- a snapshot of another leader's log

  const FOREIGN: Rules := ALL.(snapshotAgrees := false)

  /** Node 0 offers a snapshot of the `x` it committed. */
  lemma OfferForeign(x: Command) returns (t: Trace)
    ensures Reached(t, FOREIGN) && t.world.logs.Keys == {1} && t.world.offers == {First(x)}
    ensures Holds(t.world, LoneLeader(0, 1, [], First(x)), Fresh(false), Fresh(false))
  {
    t := CommitsAlone(FOREIGN, x);
    assert First(x)[..1] == First(x);
    t := Take(t, FOREIGN, Offer(0, 1), LoneLeader(0, 1, [], First(x)), {});
  }

  function Second(y: Command): Log {
    [Entry(2, y)]
  }

  /** Node 1, alone, leads term 2 with `y` and sends `z`, which follows it, to node 2. */
  lemma SendSecond(t: Trace, n0: Node, y: Command, z: Command) returns (t': Trace)
    requires Reached(t, FOREIGN) && t.world.logs.Keys == {1} && Holds(t.world, n0, Fresh(false), Fresh(false))
    ensures Reached(t', FOREIGN) && t'.world.offers == t.world.offers && Packet(1, 2, Batch(2, 1, Cursor(2, 1), z, 1)) in t'.world.net
    ensures Holds(t'.world, n0, LoneLeader(1, 2, [], [Entry(2, y), Entry(2, z)]), Fresh(false))
  {
    t' := Alone(t, FOREIGN, 1);
    t' := Alone(t', FOREIGN, 1);
    t' := LeadsAlone(t', FOREIGN, 1, 2, y);
    t' := FlushesAlone(t', FOREIGN, 1, 2, y, [], {});
    assert [] + [Entry(2, y)] == Second(y);
    t' := QueuesAlone(t', FOREIGN, 1, 2, z, Second(y));
    t' := FlushesAlone(t', FOREIGN, 1, 2, z, Second(y), {2});
    assert Second(y) + [Entry(2, z)] == [Entry(2, y), Entry(2, z)];
    assert Last(Second(y)) == Cursor(2, 1);
  }

  /** A node that buffered `z` at index 2. */
  function Waiting(z: Command): Node {
    Node(false, 2, Follower(Some(1), Some([Buffered(2, Entry(2, z))])), None, [], 0, 0, [])
  }

  lemma BuffersSecond(z: Command)
    ensures NodeStep(2, Fresh(false), Receive(2, 1, Batch(2, 1, Cursor(2, 1), z, 1), NO_ENV), Waiting(z), {})
  {
    assert [] + Numbered(1, [Entry(2, z)]) == [Buffered(2, Entry(2, z))];
  }

  function Mixed(x: Command, z: Command): Node {
    Node(false, 2, Follower(Some(1), None), None, [Entry(1, x), Entry(2, z)], 1, 1, First(x))
  }

  lemma InstallsForeign(x: Command, z: Command)
    ensures NodeStep(2, Waiting(z), Install(2, First(x)), Mixed(x, z), {})
    ensures |Installed(First(x), Waiting(z).role.catchup.value)| == 2
  {
    var buffered := [Buffered(2, Entry(2, z))];
    assert buffered[1..] == [];
    assert Tail(buffered, 1) == buffered;
    assert Unnumbered(buffered) == [Entry(2, z)];
    assert Installed(First(x), buffered) == [Entry(1, x), Entry(2, z)];
  }

  /**
   * Every hypothesis holds but that an installed snapshot is of the leader's log, and two nodes hold an entry of the
   * same index and term behind different ones.
   */
  lemma ForeignSnapshotBreaksLogMatching(x: Command, y: Command, z: Command) returns (start: System, steps: seq<Taken>)
    ensures Run(start, steps) && AdmittedUpTo(start, steps, |steps|, FOREIGN)
    ensures var s := StateAt(start, steps, |steps|);
            && 1 in s.nodes && 2 in s.nodes
            && var a, b := s.nodes[1].log, s.nodes[2].log;
               |a| == |b| == 2 && a[1].term == b[1].term && a[..2] != b[..2]
  {
    var t := OfferForeign(x);
    t := SendSecond(t, LoneLeader(0, 1, [], First(x)), y, z);
    BuffersSecond(z);
    t := Take(t, FOREIGN, Receive(2, 1, Batch(2, 1, Cursor(2, 1), z, 1), NO_ENV), Waiting(z), {});
    InstallsForeign(x, z);
    t := Take(t, FOREIGN, Install(2, First(x)), Mixed(x, z), {});
    start, steps := t.start, t.steps;
    assert [Entry(2, y), Entry(2, z)][..2][0] != [Entry(1, x), Entry(2, z)][..2][0];
  }

  // ---------------------------------------------------------------- a snapshot that shortens a log

  const SHORTER: Rules := ALL.(installExtends := false)

  /** A follower of node 0 that has committed the first entry of two. */
  function Two(x: Command, y: Command, catchup: Option<seq<Buffered<Command>>>): Node {
    Node(false, 1, Follower(Some(0), catchup), Some(Cast(1, 0)), [Entry(1, x), Entry(1, y)], 0, 1, First(x))
  }

  function Three(x: Command, y: Command, z: Command): Log {
    [Entry(1, x), Entry(1, y), Entry(1, z)]
  }

  /** Node 0 commits `x` with node 1. */
  lemma CommitFirst(t: Trace, n1: Node, x: Command) returns (t': Trace)
    requires Reached(t, SHORTER) && t.world.logs == map[1 := First(x)] && t.world.offers == {}
    requires Packet(1, 0, AppendEntriesResponse(1, Granted, 1)) in t.world.net
    requires Holds(t.world, PairLeader([], First(x), 0, 0), n1, Fresh(false))
    ensures Reached(t', SHORTER) && t'.world.logs == map[1 := First(x)] && t'.world.offers == {}
    ensures Holds(t'.world, PairLeader([], First(x), 1, 1), n1, Fresh(false))
  {
    PairAck(First(x), 0, 1);
    t' := Take(t, SHORTER, Receive(0, 1, AppendEntriesResponse(1, Granted, 1), PairEnv(1, 0, 1, 1)), PairLeader([], First(x), 1, 1), {});
  }

  /** And offers a snapshot of it. */
  lemma OfferFirst(x: Command) returns (t: Trace)
    ensures Reached(t, SHORTER) && t.world.logs == map[1 := First(x)] && t.world.offers == {First(x)}
    ensures Holds(t.world, PairLeader([], First(x), 1, 1), FollowerNode(1, Some(0), Cast(1, 0), First(x)), Fresh(false))
  {
    t := BothHold(SHORTER, x);
    t := CommitFirst(t, FollowerNode(1, Some(0), Cast(1, 0), First(x)), x);
    assert First(x)[..1] == First(x);
    t := Take(t, SHORTER, Offer(0, 1), PairLeader([], First(x), 1, 1), {});
  }

  lemma FollowsSecond(x: Command, y: Command)
    ensures NodeStep(1, FollowerNode(1, Some(0), Cast(1, 0), First(x)), Receive(1, 0, Batch(1, 0, Cursor(1, 1), y, 1), NO_ENV),
                     Two(x, y, None), {Packet(1, 0, AppendEntriesResponse(1, Granted, 2))})
  {
    var log, batch := First(x), [Entry(1, y)];
    var two := [Entry(1, x), Entry(1, y)];
    assert log + batch == two;
    assert Push(log, 0, 2, batch[0]) == two;
    assert AppendMissing(two, 0, 3, batch[1..]) == two;
    assert AppendMissing(log, 0, 2, batch) == two;
    assert Reconciled(log, 0, Cursor(1, 1), batch) == log;
    assert two[..0] == [] && [] + two[0..1] == First(x);
  }

  /** Node 1 takes `y` and acknowledges it; the acknowledgement is on its way. */
  lemma AckSecond(t: Trace, x: Command, y: Command) returns (t': Trace)
    requires Reached(t, SHORTER) && t.world.logs == map[1 := First(x)] && t.world.offers == {First(x)}
    requires Holds(t.world, PairLeader([], First(x), 1, 1), FollowerNode(1, Some(0), Cast(1, 0), First(x)), Fresh(false))
    ensures Reached(t', SHORTER) && t'.world.logs == map[1 := [Entry(1, x), Entry(1, y)]] && t'.world.offers == {First(x)}
    ensures Packet(1, 0, AppendEntriesResponse(1, Granted, 2)) in t'.world.net
    ensures Holds(t'.world, PairLeader([], [Entry(1, x), Entry(1, y)], 1, 1), Two(x, y, None), Fresh(false))
  {
    var two := [Entry(1, x), Entry(1, y)];
    assert First(x) + [Entry(1, y)] == two && Last(First(x)) == Cursor(1, 1);
    t' := PairSends(t, SHORTER, FollowerNode(1, Some(0), Cast(1, 0), First(x)), Fresh(false), First(x), two, 1, y);
    FollowsSecond(x, y);
    t' := Take(t', SHORTER, Receive(1, 0, Batch(1, 0, Cursor(1, 1), y, 1), NO_ENV), Two(x, y, None),
               {Packet(1, 0, AppendEntriesResponse(1, Granted, 2))});
  }

  function Beat(): Message {
    AppendEntries(1, 0, Cursor(1, 3), [], 1)
  }

  /** Node 0 goes on to `z`, and all that node 1 hears of it is a heartbeat, on which it opens a catch-up. */
  lemma OpensCatchUp(t: Trace, x: Command, y: Command, z: Command) returns (t': Trace)
    requires Reached(t, SHORTER) && t.world.logs == map[1 := [Entry(1, x), Entry(1, y)]] && t.world.offers == {First(x)}
    requires Packet(1, 0, AppendEntriesResponse(1, Granted, 2)) in t.world.net
    requires Holds(t.world, PairLeader([], [Entry(1, x), Entry(1, y)], 1, 1), Two(x, y, None), Fresh(false))
    ensures Reached(t', SHORTER) && t'.world.logs == map[1 := Three(x, y, z)] && t'.world.offers == {First(x)}
    ensures Packet(1, 0, AppendEntriesResponse(1, Granted, 2)) in t'.world.net && Packet(0, 1, Beat()) in t'.world.net
    ensures Holds(t'.world, PairLeader([], Three(x, y, z), 1, 1), Two(x, y, None), Fresh(false))
  {
    var two := [Entry(1, x), Entry(1, y)];
    assert two + [Entry(1, z)] == Three(x, y, z) && Last(Three(x, y, z)) == Cursor(1, 3);
    t' := PairSends(t, SHORTER, Two(x, y, None), Fresh(false), two, Three(x, y, z), 1, z);
    t' := Take(t', SHORTER, Heartbeat(0, {1}), PairLeader([], Three(x, y, z), 1, 1), Broadcast(0, {1}, Beat()));
    assert Packet(0, 1, Beat()) in t'.world.net;
  }

  lemma HearsTheBeat(x: Command, y: Command)
    ensures NodeStep(1, Two(x, y, None), Receive(1, 0, Beat(), NO_ENV), Two(x, y, Some([])), {})
  {
    assert [] + Numbered<Command>(3, []) == [];
  }

  function Shortened(x: Command): Node {
    Node(false, 1, Follower(Some(0), None), Some(Cast(1, 0)), First(x), 1, 1, First(x))
  }

  lemma InstallsShorter(x: Command, y: Command)
    ensures NodeStep(1, Two(x, y, Some([])), Install(1, First(x)), Shortened(x), {})
  {
    assert Installed(First(x), []) == First(x);
  }

  /** Node 1 takes over the stale snapshot. */
  lemma Shortens(t: Trace, n0: Node, x: Command, y: Command, z: Command) returns (t': Trace)
    requires Reached(t, SHORTER) && t.world.logs == map[1 := Three(x, y, z)] && t.world.offers == {First(x)}
    requires Packet(0, 1, Beat()) in t.world.net && Holds(t.world, n0, Two(x, y, None), Fresh(false))
    ensures Reached(t', SHORTER) && t.world.net <= t'.world.net && Holds(t'.world, n0, Shortened(x), Fresh(false))
  {
    HearsTheBeat(x, y);
    t' := Take(t, SHORTER, Receive(1, 0, Beat(), NO_ENV), Two(x, y, Some([])), {});
    InstallsShorter(x, y);
    t' := Take(t', SHORTER, Install(1, First(x)), Shortened(x), {});
  }

  lemma NotBacked(s: System, x: Command, y: Command, z: Command)
    requires 0 in s.nodes && 1 in s.nodes && s.nodes[0] == PairLeader([], Three(x, y, z), 2, 2) && s.nodes[1] == Shortened(x)
    ensures !Backed(s, 0, 2)
  {
    assert 1 in VC.Acked(s.nodes[0].role.roster.voters, 2);
    assert !Credit(s, 1, 1, 2);
  }

  /**
   * Every hypothesis holds but that an installed snapshot does not shorten a log, and a leader commits an entry that a
   * follower it counts no longer holds.
   */
  lemma ShorterSnapshotBreaksBacking(x: Command, y: Command, z: Command) returns (start: System, steps: seq<Taken>)
    ensures Run(start, steps) && HypothesesUpTo(start, steps, |steps|) && CommittedKeptUpTo(start, steps, |steps|)
    ensures steps != [] && steps[|steps| - 1].event.node == 0
    ensures var s, s' := StateAt(start, steps, |steps| - 1), StateAt(start, steps, |steps|);
            && 0 in s.nodes && 0 in s'.nodes && s.nodes[0].role.Leader? && s'.nodes[0].role.Leader?
            && s.nodes[0].committed < s'.nodes[0].committed && !Backed(s', 0, s'.nodes[0].committed)
  {
    var t := OfferFirst(x);
    t := AckSecond(t, x, y);
    t := OpensCatchUp(t, x, y, z);
    t := Shortens(t, PairLeader([], Three(x, y, z), 1, 1), x, y, z);
    PairAck(Three(x, y, z), 1, 2);
    t := Take(t, SHORTER, Receive(0, 1, AppendEntriesResponse(1, Granted, 2), PairEnv(3, 1, 3, 2)), PairLeader([], Three(x, y, z), 2, 2), {});
    KeepsLogHypotheses(t, SHORTER);
    KeepsTheCommitted(t, SHORTER);
    start, steps := t.start, t.steps;
    NotBacked(StateAt(start, steps, |steps|), x, y, z);
  }
}
