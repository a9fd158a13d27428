/**
 * A run in which a new leader credits a voter with a log the voter no longer holds: the voter granted its vote, then
 * followed a leader of a later term, which replaced its log, and only then did its grant complete the election.
 */
module StaleCredit {
  import opened RaftTypes
  import opened FullLog
  import opened RaftProtocol
  import opened VoterLogs
  import opened TruthfulCredit
  import opened CommitAgreement
  import opened WitnessRuns
  import VC = VotingCommittee

  function Voter(x: Command): Node {
    FollowerNode(2, None, Cast(2, 1), First(x))
  }

  function Replaced(y: Command): Node {
    FollowerNode(3, Some(2), Cast(2, 1), [Entry(3, y)])
  }

  function Candidate1(granted: set<PeerId>, x: Command): Node {
    CandidateNode(1, 2, {0} + {1}, granted, First(x))
  }

  /** Node 1 campaigns in term 2 and node 0, with the same log, grants it its vote. */
  lemma SecondCampaign(t: Trace, x: Command) returns (t': Trace)
    requires Reached(t, ALL) && t.world.logs.Keys == {1}
    requires Holds(t.world, PairLeader([], First(x), 0, 0), FollowerNode(1, Some(0), Cast(1, 0), First(x)), Fresh(false))
    ensures Reached(t', ALL) && t'.world.logs.Keys == {1} && Packet(0, 1, RequestVoteResponse(2, Granted)) in t'.world.net
    ensures Holds(t'.world, Voter(x), Candidate1({1}, x), Fresh(false))
  {
    var at := Cursor(1, 1);
    assert Last(First(x)) == at;
    Campaigns(1, FollowerNode(1, Some(0), Cast(1, 0), First(x)), {0});
    t' := Take(t, ALL, Timeout(1, {0}), Candidate1({1}, x), Broadcast(1, {0}, RequestVote(2, 1, at)));
    assert Packet(1, 0, RequestVote(2, 1, at)) in t'.world.net;
    Grants(0, PairLeader([], First(x), 0, 0), 1, 2);
    t' := Take(t', ALL, Receive(0, 1, RequestVote(2, 1, at), NO_ENV), Voter(x), {Packet(0, 1, RequestVoteResponse(2, Granted))});
  }

  /** Node 1 counts the vote. */
  lemma SecondVote(t: Trace, n0: Node, n2: Node, x: Command) returns (t': Trace)
    requires Reached(t, ALL) && t.world.logs.Keys == {1} && Packet(0, 1, RequestVoteResponse(2, Granted)) in t.world.net
    requires Holds(t.world, n0, Candidate1({1}, x), n2)
    ensures Reached(t', ALL) && t'.world.logs.Keys == {1} && Holds(t'.world, n0, Candidate1({1} + {0}, x), n2)
  {
    Counts(1, 2, 0, First(x));
    t' := Take(t, ALL, Receive(1, 0, RequestVoteResponse(2, Granted), NO_ENV), Candidate1({1} + {0}, x), {});
  }

  /** Node 2, alone, comes to lead term 3 and sends `y` to node 0. */
  lemma ThirdTerm(t: Trace, n0: Node, n1: Node, y: Command) returns (t': Trace)
    requires Reached(t, ALL) && t.world.logs.Keys == {1} && Holds(t.world, n0, n1, Fresh(false))
    ensures Reached(t', ALL) && t'.world.logs.Keys == {1, 3} && Packet(2, 0, Batch(3, 2, ZERO, y, 0)) in t'.world.net
    ensures Holds(t'.world, n0, n1, LoneLeader(2, 3, [], [Entry(3, y)]))
  {
    t' := Alone(t, ALL, 2);
    t' := Alone(t', ALL, 2);
    t' := Alone(t', ALL, 2);
    t' := LeadsAlone(t', ALL, 2, 3, y);
    t' := FlushesAlone(t', ALL, 2, 3, y, [], {0});
    assert [] + [Entry(3, y)] == [Entry(3, y)];
  }

  /** Node 0 gives up `x` for `y`. */
  lemma Replacement(t: Trace, n1: Node, n2: Node, x: Command, y: Command) returns (t': Trace)
    requires Reached(t, ALL) && t.world.logs.Keys == {1, 3} && Packet(2, 0, Batch(3, 2, ZERO, y, 0)) in t.world.net
    requires Holds(t.world, Voter(x), n1, n2)
    ensures Reached(t', ALL) && t'.world.logs.Keys == {1, 3} && Holds(t'.world, Replaced(y), n1, n2)
  {
    Follows(0, Voter(x), 2, 3, y);
    t' := Take(t, ALL, Receive(0, 2, Batch(3, 2, ZERO, y, 0), NO_ENV), Replaced(y), {Packet(0, 2, AppendEntriesResponse(3, Granted, 1))});
  }

  /** The world just before the election of node 1 is complete. */
  lemma BeforeTheWin(x: Command, y: Command) returns (t: Trace)
    ensures Reached(t, ALL) && t.world.logs.Keys == {1, 3}
    ensures Holds(t.world, Replaced(y), Candidate1({1} + {0}, x), LoneLeader(2, 3, [], [Entry(3, y)]))
  {
    t := BothHold(ALL, x);
    t := SecondCampaign(t, x);
    t := SecondVote(t, Voter(x), Fresh(false), x);
    t := ThirdTerm(t, Voter(x), Candidate1({1} + {0}, x), y);
    t := Replacement(t, Candidate1({1} + {0}, x), LoneLeader(2, 3, [], [Entry(3, y)]), x, y);
  }

  /**
   * Under every hypothesis, and with no committed entry ever truncated, a new leader can credit a voter with an
   * index at which the voter holds another entry.
   */
  lemma CreditCanBeStale(x: Command, y: Command) returns (start: System, steps: seq<Taken>)
    ensures Run(start, steps) && CreditHypothesesUpTo(start, steps, |steps|)
    ensures CommittedKeptUpTo(start, steps, |steps|)
    ensures steps != [] && steps[|steps| - 1].event == Win(1)
    ensures var s := StateAt(start, steps, |steps|);
            && 0 in s.nodes && 1 in s.nodes && s.nodes[1].role.Leader?
            && 0 in s.nodes[1].role.roster.voters && s.nodes[1].role.roster.voters[0] == |s.nodes[1].log| == 1
            && !Agrees(s.nodes[0].log, s.nodes[1].log, 1)
  {
    var t := BeforeTheWin(x, y);
    Wins(1, 2, {0} + {1}, {1} + {0}, First(x));
    t := Take(t, ALL, Win(1), LeaderNode(1, 2, VC.InitialRoster({1} + {0}, 1).voters, [], First(x), 0), {});
    KeepsAll(t);
    KeepsTheCommitted(t, ALL);
    assert [Entry(3, y)][0] != First(x)[0];
    start, steps := t.start, t.steps;
  }
}
