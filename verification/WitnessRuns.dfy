/**
 * Building concrete runs of the protocol step by step: the world a run has reached, single steps of its nodes, and the
 * phases that the witness runs share.
 */
module WitnessRuns {
  import opened RaftTypes
  import opened FullLog
  import opened CatchUpBuffer
  import opened AppendPlacement
  import opened RaftProtocol
  import opened LogMatching
  import opened TruthfulCredit
  import opened CommitAgreement
  import VC = VotingCommittee

  // ---------------------------------------------------------------- runs and worlds

  /** What is relevant of a system: its nodes, its network, the log of each term's leader and the snapshots on offer. */
  datatype World = World(nodes: map<PeerId, Node>, net: set<Packet>, logs: map<Term, Log>, offers: set<Log>)

  ghost predicate Shows(s: System, w: World) {
    && s.nodes == w.nodes && s.net == w.net && s.offers == w.offers
    && s.reigns.Keys == w.logs.Keys && forall t :: t in s.reigns ==> s.reigns[t].log == w.logs[t]
  }

  function After(w: World, e: Event, n': Node, out: set<Packet>): World {
    World(w.nodes[e.node := n'], w.net + out,
          if n'.role.Leader? then w.logs[n'.term := n'.log] else w.logs,
          if e.Offer? && e.upTo <= |n'.applied| then w.offers + {n'.applied[..e.upTo]} else w.offers)
  }

  /** Which hypotheses a run keeps. */
  datatype Rules = Rules(oneLeader: bool, abovePruning: bool, snapshotAgrees: bool, keepsCommitted: bool, installExtends: bool)

  const ALL: Rules := Rules(true, true, true, true, true)

  ghost predicate Admitted(s: System, e: Event, h: Rules) {
    && e.node in s.nodes
    && (h.oneLeader ==> OneLeader(s, e)) && (h.abovePruning ==> AbovePruning(s, e)) && (h.snapshotAgrees ==> SnapshotAgrees(s, e))
    && (h.keepsCommitted ==> KeepsCommitted(s, e)) && (h.installExtends ==> InstallExtends(s, e))
  }

  ghost predicate AdmittedAt(start: System, steps: seq<Taken>, i: nat, h: Rules)
    requires i < |steps|
  {
    Admitted(StateAt(start, steps, i), steps[i].event, h)
  }

  ghost predicate AdmittedUpTo(start: System, steps: seq<Taken>, n: nat, h: Rules)
    requires n <= |steps|
  {
    forall i :: 0 <= i < n ==> AdmittedAt(start, steps, i, h)
  }

  /** A run and the world it has reached. */
  datatype Trace = Trace(start: System, steps: seq<Taken>, world: World)

  ghost predicate Reached(t: Trace, h: Rules) {
    && Run(t.start, t.steps) && AdmittedUpTo(t.start, t.steps, |t.steps|, h)
    && Shows(StateAt(t.start, t.steps, |t.steps|), t.world)
  }

  /** An event that the world allows and the hypotheses admit. */
  ghost predicate Allowed(w: World, h: Rules, e: Event, n': Node, out: set<Packet>) {
    && e.node in w.nodes
    && var n := w.nodes[e.node];
    && NodeStep(e.node, n, e, n', out)
    && (e.Receive? ==> Packet(e.src, e.node, e.msg) in w.net)
    && (e.Receive? && FollowsUp(n, e.msg) ==>
          && (h.abovePruning ==> n.base == 0)
          && (h.keepsCommitted ==> n.committed <= |Reconciled(n.log, n.base, e.msg.prev, e.msg.entries)|))
    && (e.Win? && h.oneLeader ==> n.term !in w.logs)
    && (e.Install? ==>
          && e.prefix in w.offers
          && (h.snapshotAgrees ==> n.term in w.logs && e.prefix <= w.logs[n.term])
          && (h.installExtends ==> |n.log| <= |Installed(e.prefix, n.role.catchup.value)|))
  }

  lemma PrefixOfRun(start: System, steps: seq<Taken>, taken: Taken, i: nat)
    requires i < |steps|
    ensures StateAt(start, steps + [taken], i) == StateAt(start, steps, i) && (steps + [taken])[i] == steps[i]
  {
  }

  lemma RunGrows(start: System, steps: seq<Taken>, taken: Taken)
    requires Run(start, steps) && Next(StateAt(start, steps, |steps|), taken.event, taken.out, taken.state)
    ensures Run(start, steps + [taken])
  {
    var longer := steps + [taken];
    forall i | 0 <= i < |longer|
      ensures TakenAt(start, longer, i)
    {
      if i < |steps| {
        PrefixOfRun(start, steps, taken, i);
        assert TakenAt(start, steps, i);
      } else {
        assert StateAt(start, longer, i) == StateAt(start, steps, |steps|);
      }
    }
  }

  lemma AdmittedGrows(start: System, steps: seq<Taken>, taken: Taken, h: Rules)
    requires AdmittedUpTo(start, steps, |steps|, h) && Admitted(StateAt(start, steps, |steps|), taken.event, h)
    ensures AdmittedUpTo(start, steps + [taken], |steps| + 1, h)
  {
    var longer := steps + [taken];
    forall i | 0 <= i < |longer|
      ensures AdmittedAt(start, longer, i, h)
    {
      if i < |steps| {
        PrefixOfRun(start, steps, taken, i);
        assert AdmittedAt(start, steps, i, h);
      } else {
        assert StateAt(start, longer, i) == StateAt(start, steps, |steps|);
      }
    }
  }

  function NextState(s: System, e: Event, n': Node, out: set<Packet>): System
    requires e.node in s.nodes && (e.Offer? ==> e.upTo <= |s.nodes[e.node].applied|)
  {
    Update(s, e.node, n', out).(offers := if e.Offer? then s.offers + {s.nodes[e.node].applied[..e.upTo]} else s.offers)
  }

  lemma AllowedIsNext(s: System, w: World, h: Rules, e: Event, n': Node, out: set<Packet>)
    requires Shows(s, w) && Allowed(w, h, e, n', out)
    ensures Next(s, e, out, NextState(s, e, n', out))
  {
  }

  lemma AllowedIsAdmitted(s: System, w: World, h: Rules, e: Event, n': Node, out: set<Packet>)
    requires Shows(s, w) && Allowed(w, h, e, n', out)
    ensures Admitted(s, e, h)
  {
  }

  lemma ShowsNext(s: System, w: World, h: Rules, e: Event, n': Node, out: set<Packet>)
    requires Shows(s, w) && Allowed(w, h, e, n', out)
    ensures Shows(NextState(s, e, n', out), After(w, e, n', out))
  {
  }

  /** Extends a run by one step. */
  lemma Take(t: Trace, h: Rules, e: Event, n': Node, out: set<Packet>) returns (t': Trace)
    requires Reached(t, h) && Allowed(t.world, h, e, n', out)
    ensures Reached(t', h) && t'.world == After(t.world, e, n', out) && |t'.steps| == |t.steps| + 1
    ensures t'.steps[|t.steps|].event == e && StateAt(t'.start, t'.steps, |t.steps|) == StateAt(t.start, t.steps, |t.steps|)
  {
    var s := StateAt(t.start, t.steps, |t.steps|);
    var taken := Taken(e, out, NextState(s, e, n', out));
    AllowedIsNext(s, t.world, h, e, n', out);
    AllowedIsAdmitted(s, t.world, h, e, n', out);
    ShowsNext(s, t.world, h, e, n', out);
    RunGrows(t.start, t.steps, taken);
    AdmittedGrows(t.start, t.steps, taken, h);
    t' := Trace(t.start, t.steps + [taken], After(t.world, e, n', out));
  }

  lemma KeepsAll(t: Trace)
    requires Reached(t, ALL)
    ensures CreditHypothesesUpTo(t.start, t.steps, |t.steps|)
  {
    forall i | 0 <= i < |t.steps|
      ensures CreditHypothesesAt(t.start, t.steps, i)
    {
      assert AdmittedAt(t.start, t.steps, i, ALL);
    }
  }

  lemma KeepsTheCommitted(t: Trace, h: Rules)
    requires Reached(t, h) && h.keepsCommitted
    ensures CommittedKeptUpTo(t.start, t.steps, |t.steps|)
  {
    forall i | 0 <= i < |t.steps|
      ensures CommittedKept(t.start, t.steps, i)
    {
      assert AdmittedAt(t.start, t.steps, i, h);
    }
  }

  lemma KeepsLogHypotheses(t: Trace, h: Rules)
    requires Reached(t, h) && h.oneLeader && h.abovePruning && h.snapshotAgrees
    ensures HypothesesUpTo(t.start, t.steps, |t.steps|)
  {
    forall i | 0 <= i < |t.steps|
      ensures HypothesesAt(t.start, t.steps, i)
    {
      assert AdmittedAt(t.start, t.steps, i, h);
    }
  }

  // ---------------------------------------------------------------- nodes

  const ZERO: Cursor := Cursor(0, 0)
  const NO_ENV: Env := Env({}, VC.Roster(map[], map[]), VC.Roster(map[], map[]), 0)

  function Start(): World {
    World(map[0 := Fresh(false), 1 := Fresh(false), 2 := Fresh(false)], {}, map[], {})
  }

  lemma Begin(h: Rules) returns (t: Trace)
    ensures Reached(t, h) && t.world == Start()
  {
    t := Trace(System(Start().nodes, {}, map[], {}, {}), [], Start());
  }

  ghost predicate Holds(w: World, n0: Node, n1: Node, n2: Node) {
    && 0 in w.nodes && 1 in w.nodes && 2 in w.nodes
    && w.nodes[0] == n0 && w.nodes[1] == n1 && w.nodes[2] == n2
  }

  function FollowerNode(term: Term, leader: Option<PeerId>, vote: Cast, log: Log): Node {
    Node(false, term, Follower(leader, None), Some(vote), log, 0, 0, [])
  }

  function CandidateNode(self: PeerId, term: Term, requested: set<PeerId>, granted: set<PeerId>, log: Log): Node {
    Node(false, term, Candidate(Ballot(requested, granted, {}, {})), Some(Cast(term, self)), log, 0, 0, [])
  }

  /** A leader that has committed the first `committed` entries of its log. */
  function LeaderNode(self: PeerId, term: Term, voters: map<PeerId, Index>, queue: seq<Command>, log: Log, committed: Index): Node
    requires committed <= |log|
  {
    Node(false, term, Leader(VC.Roster(voters, map[]), queue), Some(Cast(term, self)), log, 0, committed, log[..committed])
  }

  function Batch(term: Term, leader: PeerId, prev: Cursor, command: Command, commit: Index): Message {
    AppendEntries(term, leader, prev, [Entry(term, command)], commit)
  }

  // ---------------------------------------------------------------- single steps

  lemma Campaigns(self: PeerId, n: Node, bonds: set<PeerId>)
    requires !n.observer && (n.role.Candidate? || (n.role.Follower? && n.role.catchup.None?))
    requires n.base == 0 && n.committed == 0 && n.applied == [] && (n.lastVote.Some? ==> n.lastVote.value.term <= n.term)
    ensures NodeStep(self, n, Timeout(self, bonds), CandidateNode(self, n.term + 1, bonds + {self}, {self}, n.log),
                     Broadcast(self, bonds, RequestVote(n.term + 1, self, Last(n.log))))
  {
    assert CanVote(n.lastVote, n.term + 1, self);
  }

  /** A node of an earlier term grants its vote to a candidate with the same cursor. */
  lemma Grants(self: PeerId, n: Node, candidate: PeerId, term: Term)
    requires self != candidate && !n.observer && n.term < term && n.base == 0 && n.committed == 0 && n.applied == []
    requires n.lastVote.Some? ==> n.lastVote.value.term <= n.term
    ensures NodeStep(self, n, Receive(self, candidate, RequestVote(term, candidate, Last(n.log)), NO_ENV),
                     FollowerNode(term, None, Cast(term, candidate), n.log),
                     {Packet(self, candidate, RequestVoteResponse(term, Granted))})
  {
  }

  lemma Counts(self: PeerId, term: Term, voter: PeerId, log: Log)
    requires self != voter
    ensures NodeStep(self, CandidateNode(self, term, {voter} + {self}, {self}, log),
                     Receive(self, voter, RequestVoteResponse(term, Granted), NO_ENV),
                     CandidateNode(self, term, {voter} + {self}, {self} + {voter}, log), {})
  {
  }

  lemma Wins(self: PeerId, term: Term, requested: set<PeerId>, granted: set<PeerId>, log: Log)
    requires requested == granted && self in granted
    ensures NodeStep(self, CandidateNode(self, term, requested, granted, log), Win(self),
                     LeaderNode(self, term, VC.InitialRoster(granted, |log|).voters, [], log, 0), {})
  {
    assert |granted| > 0;
  }

  lemma Queues(self: PeerId, term: Term, voters: map<PeerId, Index>, command: Command, log: Log, committed: Index)
    requires committed <= |log|
    ensures NodeStep(self, LeaderNode(self, term, voters, [], log, committed), Enqueue(self, [command]),
                     LeaderNode(self, term, voters, [command], log, committed), {})
  {
    assert [] + [command] == [command];
  }

  lemma NobodyToPromote(r: VC.Roster)
    requires r.nonVoters == map[]
    ensures VC.Backfilled(r, r)
  {
    VC.PromoteNobody(r);
    assert VC.PromotableIn(r, {});
  }

  /** A committee that loses nobody counts a vote of one of its voters. */
  lemma CountsOwn(self: PeerId, voters: map<PeerId, Index>, v: PeerId, k: Index, env: Env)
    requires v in voters && voters.Keys <= env.bonds + {self}
    requires env.purged == VC.Roster(voters, map[]) && env.roster == VC.Roster(voters[v := k], map[])
    requires VC.IsQuorumIndex(voters[v := k], env.quorum)
    ensures CountsVote(self, VC.Roster(voters, map[]), v, k, env)
  {
    NobodyToPromote(env.purged);
    assert VC.Retain(env.purged, env.bonds + {self}) == env.purged;
  }

  lemma CommitsTo(self: PeerId, term: Term, voters: map<PeerId, Index>, log: Log, committed: Index, quorum: Index)
    requires committed <= |log| && quorum <= |log|
    ensures CommitUpTo(LeaderNode(self, term, voters, [], log, committed), quorum) ==
            LeaderNode(self, term, voters, [], log, Max(committed, quorum))
  {
    assert committed < quorum ==> log[..committed] + log[committed..quorum] == log[..quorum];
  }

  /** A flush of one command, after which the committee's quorum is at `env.quorum`. */
  lemma FlushesOne(self: PeerId, term: Term, voters: map<PeerId, Index>, command: Command, log: Log, log': Log, committed: Index, env: Env)
    requires committed <= |log| && self in voters && voters.Keys <= env.bonds + {self} && log' == log + [Entry(term, command)]
    requires env.purged == VC.Roster(voters, map[]) && env.roster == VC.Roster(voters[self := |log'|], map[])
    requires VC.IsQuorumIndex(voters[self := |log'|], env.quorum) && env.quorum <= |log'|
    ensures NodeStep(self, LeaderNode(self, term, voters, [command], log, committed), Flush(self, true, env),
                     LeaderNode(self, term, voters[self := |log'|], [], log', Max(committed, env.quorum)),
                     Broadcast(self, env.bonds, Batch(term, self, Last(log), command, committed)))
  {
    var n := LeaderNode(self, term, voters, [command], log, committed);
    var batch := WithTerm(term, [command]);
    assert batch == [Entry(term, command)];
    assert log'[..committed] == log[..committed];
    CountsOwn(self, voters, self, |log'|, env);
    var flushed := n.(role := n.role.(queue := [], roster := env.roster), log := log');
    assert flushed == LeaderNode(self, term, voters[self := |log'|], [], log', committed);
    CommitsTo(self, term, voters[self := |log'|], log', committed, env.quorum);
    assert PromisedIndex(n) == |log'|;
    assert Flushes(self, n, true, env, CommitUpTo(flushed, env.quorum), Broadcast(self, env.bonds, Batch(term, self, Last(log), command, committed)));
  }

  // ---------------------------------------------------------------- a leader on its own

  function LoneEnv(self: PeerId, k: Index, bonds: set<PeerId>): Env {
    Env(bonds, VC.Roster(map[self := k], map[]), VC.Roster(map[self := k][self := k + 1], map[]), k + 1)
  }

  /** It commits whatever it flushes. */
  function LoneLeader(self: PeerId, term: Term, queue: seq<Command>, log: Log): Node {
    LeaderNode(self, term, map[self := |log|], queue, log, |log|)
  }

  lemma LoneQuorum(self: PeerId, voters: map<PeerId, Index>, k: Index)
    requires voters == map[self := k]
    ensures VC.IsQuorumIndex(voters, k)
  {
    assert VC.Acked(voters, k) == {self} && voters.Keys == {self};
    forall j | k < j
      ensures !VC.StrictMajority(VC.Acked(voters, j), voters.Keys)
    {
      assert VC.Acked(voters, j) == {};
    }
  }

  lemma LoneFlush(self: PeerId, term: Term, command: Command, log: Log, bonds: set<PeerId>)
    ensures NodeStep(self, LoneLeader(self, term, [command], log), Flush(self, true, LoneEnv(self, |log|, bonds)),
                     LoneLeader(self, term, [], log + [Entry(term, command)]),
                     Broadcast(self, bonds, Batch(term, self, Last(log), command, |log|)))
  {
    var log' := log + [Entry(term, command)];
    var k, k' := |log|, |log'|;
    assert map[self := k][self := k'] == map[self := k'];
    LoneQuorum(self, map[self := k'], k');
    FlushesOne(self, term, map[self := k], command, log, log', k, LoneEnv(self, k, bonds));
  }

  lemma LoneWins(self: PeerId, term: Term)
    ensures NodeStep(self, CandidateNode(self, term, {} + {self}, {self}, []), Win(self), LoneLeader(self, term, [], []), {})
  {
    Wins(self, term, {} + {self}, {self}, []);
    assert VC.InitialRoster({self}, 0).voters == map[self := 0];
  }

  /** Node `p`, alone, campaigns once more. */
  lemma Alone(t: Trace, h: Rules, p: PeerId) returns (t': Trace)
    requires Reached(t, h) && p in t.world.nodes
    requires var n := t.world.nodes[p]; n == Fresh(false) || n == CandidateNode(p, n.term, {} + {p}, {p}, [])
    ensures Reached(t', h) && t'.world.logs == t.world.logs && t'.world.offers == t.world.offers
    ensures t'.world.nodes == t.world.nodes[p := CandidateNode(p, t.world.nodes[p].term + 1, {} + {p}, {p}, [])]
  {
    var n := t.world.nodes[p];
    Campaigns(p, n, {});
    t' := Take(t, h, Timeout(p, {}), CandidateNode(p, n.term + 1, {} + {p}, {p}, []), Broadcast(p, {}, RequestVote(n.term + 1, p, ZERO)));
  }

  /** It wins, and queues its first command. */
  lemma LeadsAlone(t: Trace, h: Rules, p: PeerId, term: Term, command: Command) returns (t': Trace)
    requires Reached(t, h) && p in t.world.nodes && (h.oneLeader ==> term !in t.world.logs)
    requires t.world.nodes[p] == CandidateNode(p, term, {} + {p}, {p}, [])
    ensures Reached(t', h) && t'.world.logs == t.world.logs[term := []] && t'.world.offers == t.world.offers
    ensures t'.world.nodes == t.world.nodes[p := LoneLeader(p, term, [command], [])]
  {
    LoneWins(p, term);
    t' := Take(t, h, Win(p), LoneLeader(p, term, [], []), {});
    t' := QueuesAlone(t', h, p, term, command, []);
  }

  lemma QueuesAlone(t: Trace, h: Rules, p: PeerId, term: Term, command: Command, log: Log) returns (t': Trace)
    requires Reached(t, h) && p in t.world.nodes && t.world.nodes[p] == LoneLeader(p, term, [], log)
    requires term in t.world.logs && t.world.logs[term] == log
    ensures Reached(t', h) && t'.world.logs == t.world.logs && t'.world.offers == t.world.offers && t'.world.net == t.world.net
    ensures t'.world.nodes == t.world.nodes[p := LoneLeader(p, term, [command], log)]
  {
    Queues(p, term, map[p := |log|], command, log, |log|);
    t' := Take(t, h, Enqueue(p, [command]), LoneLeader(p, term, [command], log), {});
    assert t.world.logs[term := log] == t.world.logs;
  }

  /** It flushes, and sends the batch to its bonds. */
  lemma FlushesAlone(t: Trace, h: Rules, p: PeerId, term: Term, command: Command, log: Log, bonds: set<PeerId>) returns (t': Trace)
    requires Reached(t, h) && p in t.world.nodes && t.world.nodes[p] == LoneLeader(p, term, [command], log)
    ensures var log' := log + [Entry(term, command)];
            && Reached(t', h) && t'.world.logs == t.world.logs[term := log'] && t'.world.offers == t.world.offers
            && t'.world.nodes == t.world.nodes[p := LoneLeader(p, term, [], log')]
            && t'.world.net == t.world.net + Broadcast(p, bonds, Batch(term, p, Last(log), command, |log|))
  {
    LoneFlush(p, term, command, log, bonds);
    t' := Take(t, h, Flush(p, true, LoneEnv(p, |log|, bonds)), LoneLeader(p, term, [], log + [Entry(term, command)]),
               Broadcast(p, bonds, Batch(term, p, Last(log), command, |log|)));
  }

  // ---------------------------------------------------------------- a leader and one follower

  /** Node 0 leads node 1 in term 1 and has counted its acknowledgement of `acked`. */
  function PairLeader(queue: seq<Command>, log: Log, acked: Index, committed: Index): Node
    requires committed <= |log|
  {
    LeaderNode(0, 1, map[0 := |log|, 1 := acked], queue, log, committed)
  }

  function PairEnv(a: Index, b: Index, a': Index, b': Index): Env {
    Env({1}, VC.Roster(map[0 := a, 1 := b], map[]), VC.Roster(map[0 := a', 1 := b'], map[]), Min(a', b'))
  }

  lemma PairQuorum(voters: map<PeerId, Index>, a: Index, b: Index)
    requires voters == map[0 := a, 1 := b]
    ensures VC.IsQuorumIndex(voters, Min(a, b))
  {
    assert VC.Acked(voters, Min(a, b)) == {0, 1} && voters.Keys == {0, 1};
    forall j | Min(a, b) < j
      ensures !VC.StrictMajority(VC.Acked(voters, j), voters.Keys)
    {
      assert VC.Acked(voters, j) <= if a <= b then {1} else {0};
      AtMostOne(VC.Acked(voters, j), if a <= b then 1 else 0);
    }
  }

  lemma AtMostOne(s: set<PeerId>, x: PeerId)
    requires s <= {x}
    ensures |s| <= 1
  {
    assert s == {} || s == {x};
  }

  /** A flush that the follower has not acknowledged commits nothing new. */
  lemma PairFlush(command: Command, log: Log, log': Log, acked: Index)
    requires acked <= |log| && log' == log + [Entry(1, command)]
    ensures NodeStep(0, PairLeader([command], log, acked, acked), Flush(0, true, PairEnv(|log|, acked, |log'|, acked)),
                     PairLeader([], log', acked, acked), Broadcast(0, {1}, Batch(1, 0, Last(log), command, acked)))
  {
    var k, k' := |log|, |log'|;
    var voters := map[0 := k, 1 := acked];
    assert voters[0 := k'] == map[0 := k', 1 := acked];
    PairQuorum(voters[0 := k'], k', acked);
    FlushesOne(0, 1, voters, command, log, log', acked, PairEnv(k, acked, k', acked));
  }

  /** A granted acknowledgement by a member of the committee. */
  lemma CountsAck(self: PeerId, term: Term, voters: map<PeerId, Index>, v: PeerId, k: Index, log: Log, committed: Index, env: Env)
    requires committed <= |log| && v != self && v in voters && voters.Keys <= env.bonds + {self}
    requires env.purged == VC.Roster(voters, map[]) && env.roster == VC.Roster(voters[v := k], map[])
    requires VC.IsQuorumIndex(voters[v := k], env.quorum) && env.quorum <= |log|
    ensures NodeStep(self, LeaderNode(self, term, voters, [], log, committed), Receive(self, v, AppendEntriesResponse(term, Granted, k), env),
                     LeaderNode(self, term, voters[v := k], [], log, Max(committed, env.quorum)), {})
  {
    var n := LeaderNode(self, term, voters, [], log, committed);
    CountsOwn(self, voters, v, k, env);
    CommitsTo(self, term, voters[v := k], log, committed, env.quorum);
    assert n.(role := n.role.(roster := env.roster)) == LeaderNode(self, term, voters[v := k], [], log, committed);
  }

  /** An acknowledgement of more commits it. */
  lemma PairAck(log: Log, acked: Index, acked': Index)
    requires acked < acked' <= |log|
    ensures NodeStep(0, PairLeader([], log, acked, acked),
                     Receive(0, 1, AppendEntriesResponse(1, Granted, acked'), PairEnv(|log|, acked, |log|, acked')),
                     PairLeader([], log, acked', acked'), {})
  {
    var k := |log|;
    var voters := map[0 := k, 1 := acked];
    assert voters[1 := acked'] == map[0 := k, 1 := acked'];
    PairQuorum(voters[1 := acked'], k, acked');
    CountsAck(0, 1, voters, 1, acked', log, acked, PairEnv(k, acked, k, acked'));
  }

  /** A follower takes a first entry sent for the start of the log, whatever it held there of another term. */
  lemma Follows(self: PeerId, n: Node, leader: PeerId, term: Term, command: Command)
    requires self != leader && n.role.Follower? && n.role.catchup.None? && n.term <= term && !n.observer && n.lastVote.Some?
    requires n.base == 0 && n.committed == 0 && n.applied == [] && |n.log| <= 1 && (n.log != [] ==> n.log[0].term != term)
    ensures NodeStep(self, n, Receive(self, leader, Batch(term, leader, ZERO, command, 0), NO_ENV),
                     FollowerNode(term, Some(leader), n.lastVote.value, [Entry(term, command)]),
                     {Packet(self, leader, AppendEntriesResponse(term, Granted, 1))})
  {
    var batch := [Entry(term, command)];
    assert Reconciled(n.log, 0, ZERO, batch) == [];
    assert Push([], 0, 1, batch[0]) == batch;
    assert AppendMissing(batch, 0, 2, batch[1..]) == batch;
    assert AppendMissing([], 0, 1, batch) == batch;
    assert Accepted(n.log, 0, ZERO, batch) == batch;
  }

  // ---------------------------------------------------------------- two nodes come to hold an entry

  function First(x: Command): Log {
    [Entry(1, x)]
  }

  /** Node 0 campaigns in term 1 and node 1 grants it its vote. */
  lemma FirstCampaign(t: Trace, h: Rules) returns (t': Trace)
    requires Reached(t, h) && t.world == Start()
    ensures Reached(t', h) && t'.world.logs == map[] && t'.world.offers == {}
    ensures Packet(1, 0, RequestVoteResponse(1, Granted)) in t'.world.net
    ensures Holds(t'.world, CandidateNode(0, 1, {1} + {0}, {0}, []), FollowerNode(1, None, Cast(1, 0), []), Fresh(false))
  {
    Campaigns(0, Fresh(false), {1});
    t' := Take(t, h, Timeout(0, {1}), CandidateNode(0, 1, {1} + {0}, {0}, []), Broadcast(0, {1}, RequestVote(1, 0, ZERO)));
    assert Packet(0, 1, RequestVote(1, 0, ZERO)) in t'.world.net;
    Grants(1, Fresh(false), 0, 1);
    t' := Take(t', h, Receive(1, 0, RequestVote(1, 0, ZERO), NO_ENV), FollowerNode(1, None, Cast(1, 0), []),
               {Packet(1, 0, RequestVoteResponse(1, Granted))});
  }

  /** Node 0 counts the vote and is elected. */
  lemma FirstElection(t: Trace, h: Rules) returns (t': Trace)
    requires Reached(t, h) && t.world.logs == map[] && t.world.offers == {}
    requires Packet(1, 0, RequestVoteResponse(1, Granted)) in t.world.net
    requires Holds(t.world, CandidateNode(0, 1, {1} + {0}, {0}, []), FollowerNode(1, None, Cast(1, 0), []), Fresh(false))
    ensures Reached(t', h) && t'.world.logs == map[1 := []] && t'.world.offers == {}
    ensures Holds(t'.world, PairLeader([], [], 0, 0), FollowerNode(1, None, Cast(1, 0), []), Fresh(false))
  {
    Counts(0, 1, 1, []);
    t' := Take(t, h, Receive(0, 1, RequestVoteResponse(1, Granted), NO_ENV), CandidateNode(0, 1, {1} + {0}, {0} + {1}, []), {});
    Wins(0, 1, {1} + {0}, {0} + {1}, []);
    assert VC.InitialRoster({0} + {1}, 0).voters == map[0 := 0, 1 := 0];
    t' := Take(t', h, Win(0), PairLeader([], [], 0, 0), {});
  }

  /** Node 0 queues one more command. */
  lemma PairQueues(t: Trace, h: Rules, n1: Node, n2: Node, log: Log, acked: Index, command: Command) returns (t': Trace)
    requires Reached(t, h) && acked <= |log| && Holds(t.world, PairLeader([], log, acked, acked), n1, n2)
    requires t.world.logs == map[1 := log]
    ensures Reached(t', h) && t'.world.logs == map[1 := log] && t'.world.offers == t.world.offers && t'.world.net == t.world.net
    ensures Holds(t'.world, PairLeader([command], log, acked, acked), n1, n2)
  {
    Queues(0, 1, map[0 := |log|, 1 := acked], command, log, acked);
    t' := Take(t, h, Enqueue(0, [command]), PairLeader([command], log, acked, acked), {});
  }

  /** Node 0 flushes it and sends it to node 1. */
  lemma PairFlushes(t: Trace, h: Rules, n1: Node, n2: Node, log: Log, log': Log, acked: Index, command: Command) returns (t': Trace)
    requires Reached(t, h) && acked <= |log| && Holds(t.world, PairLeader([command], log, acked, acked), n1, n2)
    requires t.world.logs == map[1 := log] && log' == log + [Entry(1, command)]
    ensures Reached(t', h) && t'.world.logs == map[1 := log'] && t'.world.offers == t.world.offers
    ensures t'.world.net == t.world.net + Broadcast(0, {1}, Batch(1, 0, Last(log), command, acked))
    ensures Holds(t'.world, PairLeader([], log', acked, acked), n1, n2)
  {
    PairFlush(command, log, log', acked);
    var env, n', out := PairEnv(|log|, acked, |log'|, acked), PairLeader([], log', acked, acked), Broadcast(0, {1}, Batch(1, 0, Last(log), command, acked));
    t' := Take(t, h, Flush(0, true, env), n', out);
  }

  lemma PairSends(t: Trace, h: Rules, n1: Node, n2: Node, log: Log, log': Log, acked: Index, command: Command) returns (t': Trace)
    requires Reached(t, h) && acked <= |log| && Holds(t.world, PairLeader([], log, acked, acked), n1, n2)
    requires t.world.logs == map[1 := log] && log' == log + [Entry(1, command)]
    ensures Reached(t', h) && t'.world.logs == map[1 := log'] && t'.world.offers == t.world.offers
    ensures t.world.net <= t'.world.net && Packet(0, 1, Batch(1, 0, Last(log), command, acked)) in t'.world.net
    ensures Holds(t'.world, PairLeader([], log', acked, acked), n1, n2)
  {
    t' := PairQueues(t, h, n1, n2, log, acked, command);
    t' := PairFlushes(t', h, n1, n2, log, log', acked, command);
  }

  lemma FirstReceived(t: Trace, h: Rules, n0: Node, n2: Node, x: Command) returns (t': Trace)
    requires Reached(t, h) && Holds(t.world, n0, FollowerNode(1, None, Cast(1, 0), []), n2)
    requires Packet(0, 1, Batch(1, 0, ZERO, x, 0)) in t.world.net
    ensures Reached(t', h) && t'.world.logs == t.world.logs && t'.world.offers == t.world.offers
    ensures Packet(1, 0, AppendEntriesResponse(1, Granted, 1)) in t'.world.net
    ensures Holds(t'.world, n0, FollowerNode(1, Some(0), Cast(1, 0), First(x)), n2)
  {
    Follows(1, FollowerNode(1, None, Cast(1, 0), []), 0, 1, x);
    t' := Take(t, h, Receive(1, 0, Batch(1, 0, ZERO, x, 0), NO_ENV), FollowerNode(1, Some(0), Cast(1, 0), First(x)),
               {Packet(1, 0, AppendEntriesResponse(1, Granted, 1))});
  }

  /** Now both hold `x`, and node 1 has acknowledged it. */
  lemma BothHold(h: Rules, x: Command) returns (t: Trace)
    ensures Reached(t, h) && t.world.logs == map[1 := First(x)] && t.world.offers == {}
    ensures Packet(1, 0, AppendEntriesResponse(1, Granted, 1)) in t.world.net
    ensures Holds(t.world, PairLeader([], First(x), 0, 0), FollowerNode(1, Some(0), Cast(1, 0), First(x)), Fresh(false))
  {
    t := Begin(h);
    t := FirstCampaign(t, h);
    t := FirstElection(t, h);
    assert [] + [Entry(1, x)] == First(x);
    t := PairSends(t, h, FollowerNode(1, None, Cast(1, 0), []), Fresh(false), [], First(x), 0, x);
    t := FirstReceived(t, h, PairLeader([], First(x), 0, 0), Fresh(false), x);
  }
}
