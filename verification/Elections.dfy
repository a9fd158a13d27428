/**
 * Votes and elections: terms never decrease, nobody votes twice in a term, and over a fixed group a term has at most
 * one candidate that reaches quorum by polling everyone with only observers abstaining.
 */
module ElectionSafety {
  import opened RaftTypes
  import opened FullLog
  import opened RaftProtocol
  import opened Sorting

  // ---------------------------------------------------------------- one node

  /** How a step of a node may change its term, role and last vote. */
  ghost predicate VoteChange(self: PeerId, n: Node, n': Node) {
    && n'.observer == n.observer && n.term <= n'.term
    && (n'.lastVote == n.lastVote || NewVote(n, n'))
    && (n'.role.Leader? && n.role.Leader? ==> n'.term == n.term && n'.lastVote == n.lastVote)
    && (n.role.Leader? && n'.term == n.term ==> n'.role.Leader?)
    && (n'.role.Candidate? && !n.role.Candidate? ==> n.term < n'.term)
  }

  /** A new vote is cast in the node's term, and does not contradict the vote before it. */
  ghost predicate NewVote(n: Node, n': Node) {
    && n'.lastVote.Some? && n'.lastVote.value.term == n'.term
    && CanVote(n.lastVote, n'.term, n'.lastVote.value.candidate)
  }

  /** How a node comes to be a candidate with a given set of granted votes. */
  ghost predicate CandidacyChange(self: PeerId, n: Node, e: Event, n': Node) {
    n'.role.Candidate? ==>
      || (n'.role.ballot.granted == {self} && n'.lastVote == Some(Cast(n'.term, self)) && !n.observer)
      || (&& n.role.Candidate? && n'.term == n.term && n'.lastVote == n.lastVote
          && (n'.role.ballot.granted == n.role.ballot.granted || GrantReceived(n, e, n')))
  }

  ghost predicate GrantReceived(n: Node, e: Event, n': Node)
    requires n.role.Candidate? && n'.role.Candidate?
  {
    && e.Receive? && e.msg == RequestVoteResponse(n.term, Granted)
    && n'.role.ballot.granted == n.role.ballot.granted + {e.src}
  }

  ghost predicate LeadershipChange(n: Node, e: Event, n': Node) {
    n'.role.Leader? && !n.role.Leader? ==> e.Win? && n.role.Candidate? && n'.term == n.term && n'.lastVote == n.lastVote
  }

  /** Which vote traffic a step may send. */
  ghost predicate VotePackets(self: PeerId, n': Node, out: set<Packet>) {
    forall k :: k in out ==> VotePacket(self, n', k)
  }

  ghost predicate VotePacket(self: PeerId, n': Node, k: Packet) {
    && k.src == self
    && (k.msg.RequestVote? ==> k.msg.candidate == self)
    && (k.msg.RequestVoteResponse? && k.msg.vote.Granted? ==>
          n'.lastVote == Some(Cast(k.msg.term, k.dst)) && !n'.observer)
  }

  /** A node's last vote is not ahead of its term, and candidates have voted for themselves. */
  ghost predicate OwnVote(self: PeerId, n: Node) {
    && (n.lastVote.Some? ==> n.lastVote.value.term <= n.term)
    && (n.role.Candidate? || n.role.Leader? ==> n.lastVote == Some(Cast(n.term, self)) && !n.observer)
  }

  /** A campaign after the current term never has to skip a term. */
  lemma CampaignTakesTheNextTerm(self: PeerId, n: Node, bonds: set<PeerId>)
    requires n.lastVote.Some? ==> n.lastVote.value.term <= n.term
    ensures Campaign(self, n, n.term + 1, bonds).term == n.term + 1
  {
  }

  lemma CampaignVotes(self: PeerId, n: Node, e: Event, bonds: set<PeerId>)
    requires OwnVote(self, n) && !n.observer
    ensures var n' := Campaign(self, n, n.term + 1, bonds);
            && VoteChange(self, n, n') && CandidacyChange(self, n, e, n') && LeadershipChange(n, e, n')
            && OwnVote(self, n')
            && VotePackets(self, n', CampaignPackets(self, n, n.term + 1, bonds))
  {
  }

  lemma StepDownVotes(self: PeerId, n: Node, m: Message)
    requires OwnVote(self, n) && n.term <= m.term
    ensures var n' := StepDown(n, m);
            VoteChange(self, n, n') && OwnVote(self, n') && n'.lastVote == n.lastVote && n'.term == m.term
            && (n'.role.Candidate? || n'.role.Leader? ==> n' == n)
  {
  }

  /** Handling a message of the node's own term. */
  lemma HandlesVotes(self: PeerId, n: Node, src: PeerId, m: Message, env: Env, n': Node, out: set<Packet>)
    requires OwnVote(self, n) && n.term == m.term && src != self
    requires m.RequestVote? ==> m.candidate == src
    requires n.role.Candidate? ==> !m.AppendEntries?
    requires Handles(self, n, src, m, env, n', out)
    ensures var e := Receive(self, src, m, env);
            && VoteChange(self, n, n') && CandidacyChange(self, n, e, n') && LeadershipChange(n, e, n')
            && OwnVote(self, n') && VotePackets(self, n', out)
  {
    match m
    case RequestVote(_, _, _) =>
    case RequestVoteResponse(_, _) =>
    case AppendEntries(_, _, _, _, _) =>
      if n.role.Leader? {
        CampaignVotes(self, n, Receive(self, src, m, env), env.bonds);
      }
    case AppendEntriesResponse(_, _, _) =>
  }

  lemma ReceivesVotes(self: PeerId, n: Node, src: PeerId, m: Message, env: Env, n': Node, out: set<Packet>)
    requires OwnVote(self, n) && src != self
    requires m.RequestVote? ==> m.candidate == src
    requires Receives(self, n, src, m, env, n', out)
    ensures var e := Receive(self, src, m, env);
            && VoteChange(self, n, n') && CandidacyChange(self, n, e, n') && LeadershipChange(n, e, n')
            && OwnVote(self, n') && VotePackets(self, n', out)
  {
    if n.term <= m.term {
      StepDownVotes(self, n, m);
      HandlesVotes(self, StepDown(n, m), src, m, env, n', out);
    }
  }

  lemma NodeVotes(self: PeerId, n: Node, e: Event, n': Node, out: set<Packet>)
    requires OwnVote(self, n) && e.node == self && NodeStep(self, n, e, n', out)
    requires e.Receive? && e.msg.RequestVote? ==> e.msg.candidate == e.src
    ensures VoteChange(self, n, n') && CandidacyChange(self, n, e, n') && LeadershipChange(n, e, n')
    ensures OwnVote(self, n') && VotePackets(self, n', out)
  {
    match e
    case Receive(_, src, m, env) => ReceivesVotes(self, n, src, m, env, n', out);
    case Timeout(_, bonds) => CampaignVotes(self, n, e, bonds);
    case Win(_) =>
    case Enqueue(_, _) =>
    case Flush(_, _, _) =>
    case Heartbeat(_, _) =>
    case Prune(_, _) =>
    case Offer(_, _) =>
    case Install(_, _) =>
  }

  // ---------------------------------------------------------------- the system

  /** Peer `v` is a voting member that really cast this vote. */
  ghost predicate Backs(s: System, v: PeerId, c: Cast) {
    v in s.nodes && !s.nodes[v].observer && Voted(v, c) in s.votes
  }

  ghost predicate VoterInv(s: System, p: PeerId)
    requires p in s.nodes
  {
    var n := s.nodes[p];
    && OwnVote(p, n)
    && (n.lastVote.Some? ==> Voted(p, n.lastVote.value) in s.votes)
    && (n.role.Candidate? ==> forall v :: v in n.role.ballot.granted ==> Backs(s, v, Cast(n.term, p)))
  }

  ghost predicate NodeInv(s: System, p: PeerId)
    requires p in s.nodes
  {
    var n := s.nodes[p];
    VoterInv(s, p) && (n.role.Leader? ==> n.term in s.reigns && s.reigns[n.term].leader == p)
  }

  /** Nobody's recorded votes run ahead of its last vote. */
  ghost predicate VoteInv(s: System, v: Voted) {
    && v.voter in s.nodes && s.nodes[v.voter].lastVote.Some?
    && v.cast.term <= s.nodes[v.voter].lastVote.value.term
    && (v.cast.term == s.nodes[v.voter].lastVote.value.term ==> v.cast == s.nodes[v.voter].lastVote.value)
  }

  ghost predicate PacketInv(s: System, k: Packet) {
    && (k.msg.RequestVote? ==> k.msg.candidate == k.src)
    && (k.msg.RequestVoteResponse? && k.msg.vote.Granted? ==> Backs(s, k.src, Cast(k.msg.term, k.dst)))
  }

  ghost predicate ReignInv(s: System, t: Term)
    requires t in s.reigns
  {
    var r := s.reigns[t];
    && r.leader in s.nodes && t <= s.nodes[r.leader].term
    && (s.nodes[r.leader].term == t ==> s.nodes[r.leader].role.Leader?)
    && (forall v :: v in r.voters ==> Backs(s, v, Cast(t, r.leader)))
  }

  /** Two recorded votes of one peer in one term are the same vote. */
  ghost predicate OneVotePerTerm(s: System) {
    forall v, w :: v in s.votes && w in s.votes && v.voter == w.voter && v.cast.term == w.cast.term ==> v == w
  }

  /** What holds of votes in every run, also of one with rival leaders. */
  ghost predicate VotingInv(s: System) {
    && (forall p :: p in s.nodes ==> VoterInv(s, p))
    && (forall v :: v in s.votes ==> VoteInv(s, v))
    && OneVotePerTerm(s)
    && (forall k :: k in s.net ==> PacketInv(s, k))
  }

  ghost predicate ElectionInv(s: System) {
    && VotingInv(s)
    && (forall p :: p in s.nodes ==> NodeInv(s, p))
    && (forall t :: t in s.reigns ==> ReignInv(s, t))
  }

  lemma InitElections(s: System)
    requires Init(s)
    ensures ElectionInv(s)
  {
  }

  /** The facts about one step that the system-wide arguments use. */
  ghost predicate VoteStep(s: System, e: Event, out: set<Packet>, s': System) {
    && e.node in s.nodes && e.node in s'.nodes
    && var n, n' := s.nodes[e.node], s'.nodes[e.node];
    && VoteChange(e.node, n, n') && CandidacyChange(e.node, n, e, n') && LeadershipChange(n, e, n')
    && OwnVote(e.node, n') && VotePackets(e.node, n', out)
    && s'.nodes == s.nodes[e.node := n'] && s'.net == s.net + out
    && s'.votes == (if n'.lastVote.Some? then s.votes + {Voted(e.node, n'.lastVote.value)} else s.votes)
    && s'.reigns == (if n'.role.Leader?
                     then s.reigns[n'.term := Reign(e.node, Electors(s, e.node, n'.term), n'.log, n'.committed)]
                     else s.reigns)
  }

  lemma StepVotes(s: System, e: Event, out: set<Packet>, s': System)
    requires VotingInv(s) && Next(s, e, out, s')
    ensures VoteStep(s, e, out, s')
  {
    assert VoterInv(s, e.node);
    if e.Receive? {
      assert PacketInv(s, Packet(e.src, e.node, e.msg));
    }
    NodeVotes(e.node, s.nodes[e.node], e, s'.nodes[e.node], out);
  }

  lemma BacksStays(s: System, e: Event, out: set<Packet>, s': System, v: PeerId, c: Cast)
    requires VoteStep(s, e, out, s') && Backs(s, v, c)
    ensures Backs(s', v, c)
  {
  }

  lemma VotesStay(s: System, e: Event, out: set<Packet>, s': System)
    requires VotingInv(s) && VoteStep(s, e, out, s')
    ensures forall v :: v in s'.votes ==> VoteInv(s', v)
    ensures OneVotePerTerm(s')
  {
    assert VoterInv(s, e.node);
    forall v | v in s'.votes
      ensures VoteInv(s', v)
    {
      if v in s.votes {
        assert VoteInv(s, v);
      }
    }
    forall v, w | v in s'.votes && w in s'.votes && v.voter == w.voter && v.cast.term == w.cast.term
      ensures v == w
    {
      assert VoteInv(s', v) && VoteInv(s', w);
    }
  }

  lemma VotersStay(s: System, e: Event, out: set<Packet>, s': System, q: PeerId)
    requires VotingInv(s) && VoteStep(s, e, out, s')
    requires (e.Receive? ==> Packet(e.src, e.node, e.msg) in s.net) && q in s'.nodes
    ensures VoterInv(s', q)
  {
    var n, n' := s.nodes[e.node], s'.nodes[e.node];
    assert VoterInv(s, q) && VoterInv(s, e.node);
    if q == e.node {
      if n'.role.Candidate? {
        if e.Receive? {
          assert PacketInv(s, Packet(e.src, e.node, e.msg));
        }
        forall v | v in n'.role.ballot.granted
          ensures Backs(s', v, Cast(n'.term, q))
        {
          if v == q {
          } else {
            assert n.role.Candidate?;
            BacksStays(s, e, out, s', v, Cast(n.term, q));
          }
        }
      }
    } else if s.nodes[q].role.Candidate? {
      forall v | v in s.nodes[q].role.ballot.granted
        ensures Backs(s', v, Cast(s.nodes[q].term, q))
      {
        BacksStays(s, e, out, s', v, Cast(s.nodes[q].term, q));
      }
    }
  }

  lemma PacketsStay(s: System, e: Event, out: set<Packet>, s': System, k: Packet)
    requires VotingInv(s) && VoteStep(s, e, out, s') && k in s'.net
    ensures PacketInv(s', k)
  {
    if k in s.net {
      assert PacketInv(s, k);
      if k.msg.RequestVoteResponse? && k.msg.vote.Granted? {
        BacksStays(s, e, out, s', k.src, Cast(k.msg.term, k.dst));
      }
    } else {
      assert VotePacket(e.node, s'.nodes[e.node], k);
    }
  }

  /** Every step of every run keeps what votes rest on. */
  lemma StepVoting(s: System, e: Event, out: set<Packet>, s': System)
    requires VotingInv(s) && Next(s, e, out, s')
    ensures VotingInv(s')
  {
    StepVotes(s, e, out, s');
    VotesStay(s, e, out, s');
    forall q | q in s'.nodes ensures VoterInv(s', q) { VotersStay(s, e, out, s', q); }
    forall k | k in s'.net ensures PacketInv(s', k) { PacketsStay(s, e, out, s', k); }
  }

  lemma {:induction false} VotingUpTo(start: System, steps: seq<Taken>, n: nat)
    requires Run(start, steps) && n <= |steps|
    ensures VotingInv(StateAt(start, steps, n))
  {
    if n > 0 {
      VotingUpTo(start, steps, n - 1);
      assert TakenAt(start, steps, n - 1);
      StepVoting(StateAt(start, steps, n - 1), steps[n - 1].event, steps[n - 1].out, steps[n - 1].state);
    }
  }

  /** In every run terms never decrease, the last vote's term never exceeds the role's, and nobody votes twice in a term. */
  lemma VotersAreConsistent(start: System, steps: seq<Taken>, i: nat, p: PeerId, v: Voted, w: Voted)
    requires Run(start, steps) && i < |steps|
    requires p in StateAt(start, steps, i).nodes
    ensures var s, s' := StateAt(start, steps, i), steps[i].state;
            && p in s'.nodes && s.nodes[p].term <= s'.nodes[p].term
            && (s.nodes[p].lastVote.Some? ==> s.nodes[p].lastVote.value.term <= s.nodes[p].term)
            && (v in s.votes && w in s.votes && v.voter == w.voter && v.cast.term == w.cast.term
                ==> v.cast.candidate == w.cast.candidate)
  {
    VotingUpTo(start, steps, i);
    assert TakenAt(start, steps, i);
    assert VoterInv(StateAt(start, steps, i), p);
    StepVotes(StateAt(start, steps, i), steps[i].event, steps[i].out, steps[i].state);
  }

  /** The same on the wire: in every run, all votes a peer ever grants in a term go to one candidate. */
  lemma GrantsGoToOneCandidate(start: System, steps: seq<Taken>, n: nat, k: Packet, l: Packet)
    requires Run(start, steps) && n <= |steps|
    requires k in StateAt(start, steps, n).net && l in StateAt(start, steps, n).net && k.src == l.src
    requires k.msg.RequestVoteResponse? && k.msg.vote.Granted? && l.msg == k.msg
    ensures k.dst == l.dst
  {
    VotingUpTo(start, steps, n);
    var s := StateAt(start, steps, n);
    assert PacketInv(s, k) && PacketInv(s, l);
    assert Backs(s, k.src, Cast(k.msg.term, k.dst)) && Backs(s, k.src, Cast(k.msg.term, l.dst));
  }

  lemma LeadersStay(s: System, e: Event, out: set<Packet>, s': System, q: PeerId)
    requires ElectionInv(s) && VoteStep(s, e, out, s') && OneLeader(s, e)
    requires q in s'.nodes && VoterInv(s', q)
    ensures NodeInv(s', q)
  {
    assert NodeInv(s, q) && NodeInv(s, e.node);
  }

  lemma ReignsStay(s: System, e: Event, out: set<Packet>, s': System, t: Term)
    requires ElectionInv(s) && VoteStep(s, e, out, s') && OneLeader(s, e) && t in s'.reigns
    ensures ReignInv(s', t)
  {
    var p := e.node;
    var n, n' := s.nodes[p], s'.nodes[p];
    assert NodeInv(s, p);
    if t in s.reigns {
      assert ReignInv(s, t);
      forall v | v in s.reigns[t].voters
        ensures Backs(s', v, Cast(t, s.reigns[t].leader))
      {
        BacksStays(s, e, out, s', v, Cast(t, s.reigns[t].leader));
      }
    }
    if n.role.Candidate? {
      forall v | v in n.role.ballot.granted
        ensures Backs(s', v, Cast(n.term, p))
      {
        BacksStays(s, e, out, s', v, Cast(n.term, p));
      }
    }
  }

  /** Every step that crowns at most one leader per term keeps the election invariant. */
  lemma StepElections(s: System, e: Event, out: set<Packet>, s': System)
    requires ElectionInv(s) && Next(s, e, out, s') && OneLeader(s, e)
    ensures ElectionInv(s')
  {
    StepVotes(s, e, out, s');
    StepVoting(s, e, out, s');
    forall q | q in s'.nodes ensures NodeInv(s', q) { LeadersStay(s, e, out, s', q); }
    forall t | t in s'.reigns ensures ReignInv(s', t) { ReignsStay(s, e, out, s', t); }
  }

  // ---------------------------------------------------------------- conditional election safety

  function Electorate(s: System): set<PeerId> {
    set p | p in s.nodes && !s.nodes[p].observer
  }

  /** Candidate `p` has polled the whole group, and only observers have abstained from its ballot. */
  ghost predicate FullPolling(s: System, p: PeerId) {
    p in s.nodes && s.nodes[p].role.Candidate? ==>
      && s.nodes[p].role.ballot.requested == s.nodes.Keys
      && s.nodes[p].role.ballot.abstained <= s.nodes.Keys - Electorate(s)
  }

  /** If the step is a win, it is one by full polling. */
  ghost predicate PolledWin(s: System, e: Event) {
    e.Win? ==> FullPolling(s, e.node)
  }

  ghost predicate MajorityOf(part: set<PeerId>, whole: set<PeerId>) {
    part <= whole && |whole| < 2 * |part|
  }

  /** Every leader so far was elected by a majority of the voting members. */
  ghost predicate ElectedByMajority(s: System) {
    forall t :: t in s.reigns ==> MajorityOf(s.reigns[t].voters, Electorate(s))
  }

  lemma MajoritiesMeet(a: set<PeerId>, b: set<PeerId>, whole: set<PeerId>) returns (v: PeerId)
    requires MajorityOf(a, whole) && MajorityOf(b, whole)
    ensures v in a && v in b
  {
    if a !! b {
      assert |a + b| == |a| + |b|;
      SubsetSize(a + b, whole);
    }
    v :| v in a && v in b;
  }

  lemma SameBackersSameCandidate(s: System, t: Term, a: set<PeerId>, p: PeerId, b: set<PeerId>, q: PeerId)
    requires OneVotePerTerm(s) && MajorityOf(a, Electorate(s)) && MajorityOf(b, Electorate(s))
    requires forall v :: v in a ==> Backs(s, v, Cast(t, p))
    requires forall v :: v in b ==> Backs(s, v, Cast(t, q))
    ensures p == q
  {
    var v := MajoritiesMeet(a, b, Electorate(s));
    assert Backs(s, v, Cast(t, p)) && Backs(s, v, Cast(t, q));
  }

  /** When only observers abstain, the dynamic quorum is still a majority of the voting members. */
  lemma QuorumIsMajority(s: System, p: PeerId)
    requires VotingInv(s) && FullPolling(s, p)
    requires p in s.nodes && s.nodes[p].role.Candidate? && QuorumReached(s.nodes[p].role.ballot)
    ensures MajorityOf(s.nodes[p].role.ballot.granted, Electorate(s))
  {
    var b := s.nodes[p].role.ballot;
    assert VoterInv(s, p);
    forall v | v in b.granted
      ensures v in Electorate(s)
    {
      assert Backs(s, v, Cast(s.nodes[p].term, p));
    }
    var voting, observing := Electorate(s), s.nodes.Keys - Electorate(s);
    SubsetSize(b.abstained, observing);
    assert voting + observing == s.nodes.Keys;
    DisjointSize(voting, observing);
  }

  lemma DisjointSize(a: set<PeerId>, b: set<PeerId>)
    requires a !! b
    ensures |a + b| == |a| + |b|
  {
  }

  /** A candidate that reaches quorum is the only one ever to do so in its term. */
  lemma WinnerIsFirst(s: System, e: Event, out: set<Packet>, s': System)
    requires ElectionInv(s) && PolledWin(s, e) && ElectedByMajority(s) && Next(s, e, out, s')
    ensures OneLeader(s, e)
  {
    if e.Win? && s.nodes[e.node].term in s.reigns {
      var p, t := e.node, s.nodes[e.node].term;
      QuorumIsMajority(s, p);
      assert NodeInv(s, p) && ReignInv(s, t);
      SameBackersSameCandidate(s, t, s.nodes[p].role.ballot.granted, p, s.reigns[t].voters, s.reigns[t].leader);
    }
  }

  /** The voters of a term's leader are those of the same leader before, or the granters of a candidate that just won. */
  ghost predicate SameVoters(s: System, e: Event, s': System, t: Term)
    requires t in s'.reigns
  {
    || (t in s.reigns && s'.reigns[t].voters == s.reigns[t].voters)
    || (&& e.Win? && e.node in s.nodes && s.nodes[e.node].role.Candidate? && QuorumReached(s.nodes[e.node].role.ballot)
        && s'.reigns[t].voters == s.nodes[e.node].role.ballot.granted)
  }

  lemma LeaderStep(s: System, e: Event, out: set<Packet>, s': System)
    requires Next(s, e, out, s') && s'.nodes[e.node].role.Leader?
    ensures s'.nodes[e.node].term == s.nodes[e.node].term
    ensures if e.Win? then s.nodes[e.node].role.Candidate? && QuorumReached(s.nodes[e.node].role.ballot)
            else s.nodes[e.node].role.Leader?
  {
  }

  lemma ReignVoters(s: System, e: Event, out: set<Packet>, s': System)
    requires ElectionInv(s) && Next(s, e, out, s')
    ensures forall t :: t in s'.reigns ==> SameVoters(s, e, s', t)
  {
    if s'.nodes[e.node].role.Leader? {
      LeaderStep(s, e, out, s');
      assert NodeInv(s, e.node);
    }
  }

  lemma StepMajority(s: System, e: Event, out: set<Packet>, s': System)
    requires ElectionInv(s) && PolledWin(s, e) && ElectedByMajority(s) && Next(s, e, out, s')
    ensures ElectedByMajority(s')
  {
    ElectorateStays(s, e, out, s');
    ReignVoters(s, e, out, s');
    MajorityCarries(s, e, s');
  }

  lemma MajorityCarries(s: System, e: Event, s': System)
    requires ElectionInv(s) && PolledWin(s, e) && ElectedByMajority(s) && Electorate(s') == Electorate(s)
    requires forall t :: t in s'.reigns ==> SameVoters(s, e, s', t)
    ensures ElectedByMajority(s')
  {
    if e.Win? && e.node in s.nodes && s.nodes[e.node].role.Candidate? && QuorumReached(s.nodes[e.node].role.ballot) {
      QuorumIsMajority(s, e.node);
    }
    forall t | t in s'.reigns
      ensures MajorityOf(s'.reigns[t].voters, Electorate(s'))
    {
      assert SameVoters(s, e, s', t);
    }
  }

  lemma ElectorateStays(s: System, e: Event, out: set<Packet>, s': System)
    requires VotingInv(s) && Next(s, e, out, s')
    ensures Electorate(s') == Electorate(s)
  {
    StepVotes(s, e, out, s');
  }

  /** Votes and the electorate carry over to every later state of a run. */
  lemma {:induction false} VotesCarry(start: System, steps: seq<Taken>, i: nat, j: nat, v: PeerId, c: Cast)
    requires Run(start, steps) && i <= j <= |steps|
    ensures Backs(StateAt(start, steps, i), v, c) ==> Backs(StateAt(start, steps, j), v, c)
    ensures Electorate(StateAt(start, steps, j)) == Electorate(StateAt(start, steps, i))
  {
    if i < j {
      VotesCarry(start, steps, i, j - 1, v, c);
      VotingUpTo(start, steps, j - 1);
      assert TakenAt(start, steps, j - 1);
      var s, taken := StateAt(start, steps, j - 1), steps[j - 1];
      StepVotes(s, taken.event, taken.out, taken.state);
      ElectorateStays(s, taken.event, taken.out, taken.state);
      if Backs(s, v, c) {
        BacksStays(s, taken.event, taken.out, taken.state, v, c);
      }
    }
  }

  /** A candidate with enough grants to win. */
  ghost predicate ReachesQuorum(s: System, p: PeerId, t: Term) {
    p in s.nodes && s.nodes[p].role.Candidate? && s.nodes[p].term == t && QuorumReached(s.nodes[p].role.ballot)
  }

  /**
   * Conditional election safety: in every run, two candidates that reach quorum in one term, at any two times, are the
   * same candidate, provided that these two have polled the whole group and only observers abstained from their
   * ballots. How any other candidate polled does not matter.
   */
  lemma OneQuorumPerTerm(start: System, steps: seq<Taken>, i: nat, j: nat, p: PeerId, q: PeerId, t: Term)
    requires Run(start, steps) && i <= j <= |steps|
    requires FullPolling(StateAt(start, steps, i), p) && FullPolling(StateAt(start, steps, j), q)
    requires ReachesQuorum(StateAt(start, steps, i), p, t) && ReachesQuorum(StateAt(start, steps, j), q, t)
    ensures p == q
  {
    var s, s' := StateAt(start, steps, i), StateAt(start, steps, j);
    VotingUpTo(start, steps, i);
    VotingUpTo(start, steps, j);
    QuorumIsMajority(s, p);
    QuorumIsMajority(s', q);
    assert VoterInv(s, p) && VoterInv(s', q);
    var a, b := s.nodes[p].role.ballot.granted, s'.nodes[q].role.ballot.granted;
    VotesCarry(start, steps, i, j, p, Cast(t, p));
    forall v | v in a
      ensures Backs(s', v, Cast(t, p))
    {
      VotesCarry(start, steps, i, j, v, Cast(t, p));
    }
    SameBackersSameCandidate(s', t, a, p, b, q);
  }

  ghost predicate PolledWinAt(start: System, steps: seq<Taken>, i: nat)
    requires i < |steps|
  {
    PolledWin(StateAt(start, steps, i), steps[i].event)
  }

  lemma {:induction false} ElectionsUpTo(start: System, steps: seq<Taken>, n: nat)
    requires Run(start, steps) && n <= |steps|
    requires forall i :: 0 <= i < n ==> PolledWinAt(start, steps, i)
    ensures ElectionInv(StateAt(start, steps, n)) && ElectedByMajority(StateAt(start, steps, n))
  {
    if n == 0 {
      InitElections(start);
    } else {
      ElectionsUpTo(start, steps, n - 1);
      assert TakenAt(start, steps, n - 1) && PolledWinAt(start, steps, n - 1);
      var s, taken := StateAt(start, steps, n - 1), steps[n - 1];
      WinnerIsFirst(s, taken.event, taken.out, taken.state);
      StepElections(s, taken.event, taken.out, taken.state);
      StepMajority(s, taken.event, taken.out, taken.state);
    }
  }

  /** So in a run whose winners polled the whole group nobody wins an election in a term that already had a leader. */
  lemma OneLeaderPerTerm(start: System, steps: seq<Taken>, i: nat)
    requires Run(start, steps) && i < |steps|
    requires forall j :: 0 <= j <= i ==> PolledWinAt(start, steps, j)
    ensures steps[i].event.node in StateAt(start, steps, i).nodes && OneLeader(StateAt(start, steps, i), steps[i].event)
  {
    ElectionsUpTo(start, steps, i);
    assert TakenAt(start, steps, i) && PolledWinAt(start, steps, i);
    WinnerIsFirst(StateAt(start, steps, i), steps[i].event, steps[i].out, steps[i].state);
  }
}
