/**
 * Truthful credit. A leader counts a voter with its own last index the moment it is elected, and with
 * whatever index the voter acknowledges later. With at most one leader per term each such credit is
 * true: as long as the voter stays in the leader's term its log agrees with the leader's up to there.
 * So every commit is backed by a strict majority of the committee that really holds the entries.
 */
module TruthfulCredit {
  import opened RaftTypes
  import opened FullLog
  import opened AppendPlacement
  import opened RaftProtocol
  import opened LogMatching
  import opened VoterLogs
  import E = ElectionSafety
  import VC = VotingCommittee

  // ---------------------------------------------------------------- what a credit means

  /** Crediting `v` with index `k` in term `t` is true: it has moved to a later term, or holds the entries. */
  ghost predicate Credit(s: System, v: PeerId, t: Term, k: Index) {
    && v in s.nodes && t in s.reigns && t <= s.nodes[v].term && k <= |s.reigns[t].log|
    && (s.nodes[v].term == t ==> Agrees(s.nodes[v].log, s.reigns[t].log, k))
  }

  ghost predicate NodeCredit(s: System, p: PeerId)
    requires p in s.nodes
  {
    var n := s.nodes[p];
    n.role.Leader? ==>
      VC.ValidRoster(p, n.role.roster) && forall v, k :: VC.Credited(n.role.roster, v, k) ==> Credit(s, v, n.term, k)
  }

  ghost predicate PacketCredit(s: System, k: Packet) {
    k.msg.AppendEntriesResponse? && k.msg.vote.Granted? ==> Credit(s, k.src, k.msg.term, k.msg.lastLogIndex)
  }

  ghost predicate CreditInv(s: System) {
    && (forall p :: p in s.nodes ==> NodeCredit(s, p))
    && (forall k :: k in s.net ==> PacketCredit(s, k))
  }

  lemma InitCredit(s: System)
    requires Init(s)
    ensures CreditInv(s)
  {
  }

  // ---------------------------------------------------------------- how a node's log moves within a term

  /** Reconciling with a message of the leader never drops an entry that agrees with the leader's log. */
  lemma ReconcileKeepsAgreement(R: Reigns, log: Log, base: Index, m: Message, k: Index)
    requires m.AppendEntries? && MessageOK(R, m) && base <= |log| && Agrees(log, R[m.term].log, k)
    ensures Agrees(Reconciled(log, base, m.prev, m.entries), R[m.term].log, k)
  {
    var lead, i := R[m.term].log, m.prev.index;
    var r := Reconciled(log, base, m.prev, m.entries);
    assert forall j :: 0 <= j < k ==> log[j] == log[..k][j] == lead[..k][j] == lead[j];
    assert m.entries != [] ==> m.entries[0] == lead[i];
    assert k <= |r|;
    assert r[..k] == log[..k];
  }

  lemma AppendKeepsAgreement(R: Reigns, p: PeerId, n: Node, m: Message, k: Index)
    requires NodeOK(R, p, n) && n.role.Follower? && m.AppendEntries? && MessageOK(R, m)
    requires Agrees(n.log, R[m.term].log, k)
    ensures Agrees(OnAppendEntries(n, m).log, R[m.term].log, k)
  {
    ReconcileKeepsAgreement(R, n.log, n.base, m, k);
    var r := Reconciled(n.log, n.base, m.prev, m.entries);
    assert r <= OnAppendEntries(n, m).log;
    assert OnAppendEntries(n, m).log[..k] == r[..k];
  }

  /** A step that stays in the term keeps agreement with the term's leader. */
  ghost predicate LogChange(R: Reigns, R': Reigns, n: Node, n': Node) {
    n'.term == n.term && n.term in R && n.term in R' ==>
      forall k :: Agrees(n.log, R[n.term].log, k) ==> Agrees(n'.log, R'[n.term].log, k)
  }

  /** An acknowledgement is of the whole log, which follows the leader's. */
  ghost predicate CreditPacket(self: PeerId, R: Reigns, n': Node, k: Packet) {
    k.msg.AppendEntriesResponse? && k.msg.vote.Granted? ==>
      && k.src == self && k.msg.term == n'.term && n'.term in R
      && k.msg.lastLogIndex == |n'.log| && n'.log <= R[n'.term].log
  }

  ghost predicate CreditPackets(self: PeerId, R: Reigns, n': Node, out: set<Packet>) {
    forall k :: k in out ==> CreditPacket(self, R, n', k)
  }

  lemma HandlesLogChange(R: Reigns, p: PeerId, n: Node, src: PeerId, m: Message, env: Env, n': Node, out: set<Packet>)
    requires ReignsOK(R) && NodeOK(R, p, n) && MessageOK(R, m) && n.term == m.term
    requires n.role.Candidate? ==> !m.AppendEntries?
    requires m.AppendEntries? && n.role.Follower? && m.entries != [] && m.prev.index == 0 ==> n.base == 0
    requires E.OwnVote(p, n) && Handles(p, n, src, m, env, n', out)
    ensures LogChange(R, R, n, n') && CreditPackets(p, R, n', out)
  {
    if m.AppendEntries? && n.role.Follower? {
      forall k | Agrees(n.log, R[n.term].log, k)
        ensures Agrees(n'.log, R[n.term].log, k)
      {
        AppendKeepsAgreement(R, p, n, m, k);
      }
      if Consistent(n.log, n.base, m.prev) && m.entries != [] {
        AcceptedFollowsLeader(R, n.log, n.base, m);
      }
    }
  }

  lemma InstallKeepsAgreement(R: Reigns, p: PeerId, n: Node, prefix: Log, n': Node, k: Index)
    requires NodeOK(R, p, n) && Installs(n, prefix, n') && n.term in R && prefix <= R[n.term].log
    requires |n.log| <= |n'.log| && Agrees(n.log, R[n.term].log, k)
    ensures Agrees(n'.log, R[n.term].log, k)
  {
    InstalledLog(R, n, prefix, n');
  }

  lemma ReceivesLogChange(R: Reigns, p: PeerId, n: Node, src: PeerId, m: Message, env: Env, n': Node, out: set<Packet>)
    requires ReignsOK(R) && NodeOK(R, p, n) && E.OwnVote(p, n) && MessageOK(R, m)
    requires FollowsUp(n, m) && m.entries != [] && m.prev.index == 0 ==> n.base == 0
    requires Receives(p, n, src, m, env, n', out)
    ensures LogChange(R, R, n, n') && CreditPackets(p, R, n', out)
  {
    if n.term <= m.term {
      HandlesLogChange(R, p, StepDown(n, m), src, m, env, n', out);
    }
  }

  /** A leader only ever extends its log, and the log of its term with it. */
  lemma LeaderLogChange(R: Reigns, R': Reigns, p: PeerId, n: Node, n': Node)
    requires NodeOK(R, p, n) && n.role.Leader? && n'.role.Leader? && n'.term == n.term && n.log <= n'.log
    requires n.term in R' && R'[n.term].log == n'.log
    ensures LogChange(R, R', n, n')
  {
    forall k: Index | Agrees(n.log, R[n.term].log, k)
      ensures Agrees(n'.log, R'[n.term].log, k)
    {
      assert n'.log[..k] == n.log[..k];
    }
  }

  lemma InstallLogChange(R: Reigns, p: PeerId, n: Node, prefix: Log, n': Node)
    requires NodeOK(R, p, n) && Installs(n, prefix, n') && n.term in R && prefix <= R[n.term].log && |n.log| <= |n'.log|
    ensures LogChange(R, R, n, n')
  {
    forall k | Agrees(n.log, R[n.term].log, k)
      ensures Agrees(n'.log, R[n.term].log, k)
    {
      InstallKeepsAgreement(R, p, n, prefix, n', k);
    }
  }

  lemma NodeLogChange(R: Reigns, R': Reigns, p: PeerId, voters: set<PeerId>, n: Node, e: Event, n': Node, out: set<Packet>)
    requires ReignsOK(R) && NodeOK(R, p, n) && E.OwnVote(p, n) && e.node == p && NodeStep(p, n, e, n', out)
    requires e.Receive? ==> MessageOK(R, e.msg)
    requires e.Win? ==> n.term !in R
    requires e.Receive? && FollowsUp(n, e.msg) && e.msg.entries != [] && e.msg.prev.index == 0 ==> n.base == 0
    requires e.Install? ==> n.term in R && e.prefix <= R[n.term].log && |n.log| <= |n'.log|
    requires R' == Recorded(R, p, voters, n')
    ensures LogChange(R, R', n, n') && CreditPackets(p, R, n', out)
  {
    if n.role.Leader? && n'.role.Leader? && n'.term == n.term {
      LeaderLogChange(R, R', p, n, n');
    }
    match e
    case Receive(_, src, m, env) => ReceivesLogChange(R, p, n, src, m, env, n', out);
    case Timeout(_, _) =>
    case Win(_) =>
    case Enqueue(_, _) =>
    case Flush(_, _, _) =>
    case Heartbeat(_, _) =>
    case Prune(_, _) =>
    case Offer(_, _) =>
    case Install(_, prefix) => InstallLogChange(R, p, n, prefix, n');
  }

  // ---------------------------------------------------------------- how the committee's credits move

  ghost predicate CreditChange(self: PeerId, n: Node, e: Event, n': Node) {
    n.role.Leader? && n'.role.Leader? ==>
      && VC.ValidRoster(self, n'.role.roster)
      && forall v, k :: VC.Credited(n'.role.roster, v, k) ==> VC.Credited(n.role.roster, v, k) || NewCredit(self, n, e, n', v, k)
  }

  /** A new credit is an acknowledgement just received, or the leader's own. */
  ghost predicate NewCredit(self: PeerId, n: Node, e: Event, n': Node, v: PeerId, k: Index) {
    || (e.Receive? && e.src == v && e.msg == AppendEntriesResponse(n.term, Granted, k))
    || (v == self && k == |n'.log|)
  }

  lemma VoteCredits(self: PeerId, roster: VC.Roster, follower: PeerId, index: Index, env: Env)
    requires VC.ValidRoster(self, roster) && CountsVote(self, roster, follower, index, env)
    ensures VC.ValidRoster(self, env.roster)
    ensures forall v, k :: VC.Credited(env.roster, v, k) ==> VC.Credited(roster, v, k) || (v == follower && k == index)
  {
    VC.StepKeepsRoster(self, roster, VC.Purged(env.bonds), env.purged);
    VC.StepKeepsRoster(self, env.purged, VC.Voted(follower, index), env.roster);
  }

  lemma NoVoteCredits(self: PeerId, roster: VC.Roster, follower: PeerId, abstained: bool, env: Env)
    requires VC.ValidRoster(self, roster) && follower != self && CountsNoVote(self, roster, follower, abstained, env)
    ensures VC.ValidRoster(self, env.roster)
    ensures forall v, k :: VC.Credited(env.roster, v, k) ==> VC.Credited(roster, v, k)
  {
    if abstained {
      VC.StepKeepsRoster(self, roster, VC.Removed(follower), env.purged);
    }
    VC.StepKeepsRoster(self, env.purged, VC.Purged(env.bonds), env.roster);
  }

  lemma ResponseCredits(self: PeerId, n: Node, src: PeerId, m: Message, env: Env, n': Node, out: set<Packet>)
    requires n.role.Leader? && VC.ValidRoster(self, n.role.roster) && src != self
    requires m.AppendEntriesResponse? && m.term == n.term && Handles(self, n, src, m, env, n', out)
    ensures CreditChange(self, n, Receive(self, src, m, env), n')
  {
    assert n'.role.Leader? && n'.role.roster == env.roster;
    if m.vote.Granted? {
      VoteCredits(self, n.role.roster, src, m.lastLogIndex, env);
    } else {
      NoVoteCredits(self, n.role.roster, src, m.vote.Abstained?, env);
    }
  }

  lemma ReceivesCredits(self: PeerId, n: Node, src: PeerId, m: Message, env: Env, n': Node, out: set<Packet>)
    requires n.role.Leader? && VC.ValidRoster(self, n.role.roster) && src != self && Receives(self, n, src, m, env, n', out)
    ensures CreditChange(self, n, Receive(self, src, m, env), n')
  {
    if m.term == n.term && m.AppendEntriesResponse? {
      ResponseCredits(self, n, src, m, env, n', out);
    }
  }

  lemma FlushCredits(self: PeerId, n: Node, sent: bool, env: Env, n': Node, out: set<Packet>)
    requires n.role.Leader? && VC.ValidRoster(self, n.role.roster) && Flushes(self, n, sent, env, n', out)
    ensures CreditChange(self, n, Flush(self, sent, env), n')
  {
    if sent {
      VoteCredits(self, n.role.roster, self, PromisedIndex(n), env);
    }
  }

  lemma NodeCredits(self: PeerId, n: Node, e: Event, n': Node, out: set<Packet>)
    requires e.node == self && NodeStep(self, n, e, n', out)
    requires n.role.Leader? ==> VC.ValidRoster(self, n.role.roster)
    ensures CreditChange(self, n, e, n')
  {
    if n.role.Leader? {
      match e
      case Receive(_, src, m, env) => ReceivesCredits(self, n, src, m, env, n', out);
      case Timeout(_, _) =>
      case Win(_) =>
      case Enqueue(_, _) =>
      case Flush(_, sent, env) => FlushCredits(self, n, sent, env, n', out);
      case Heartbeat(_, _) =>
      case Prune(_, _) =>
      case Offer(_, _) =>
      case Install(_, _) =>
    }
  }

  // ---------------------------------------------------------------- the system

  /** The facts about one step that the system-wide argument uses. */
  ghost predicate CreditStep(s: System, e: Event, out: set<Packet>, s': System) {
    && TwinStep(s, e, out, s')
    && Grows(s.reigns, s'.reigns)
    && LogChange(s.reigns, s'.reigns, s.nodes[e.node], s'.nodes[e.node])
    && CreditPackets(e.node, s.reigns, s'.nodes[e.node], out)
    && CreditChange(e.node, s.nodes[e.node], e, s'.nodes[e.node])
    && WinCredit(s, e, s')
  }

  /** A new leader credits exactly its voters, each with the leader's own last index. */
  ghost predicate WinCredit(s: System, e: Event, s': System)
    requires e.node in s.nodes && e.node in s'.nodes
  {
    var n, n' := s.nodes[e.node], s'.nodes[e.node];
    e.Win? ==>
      n.role.Candidate? && n' == n.(role := Leader(VC.InitialRoster(n.role.ballot.granted, |n.log|), []))
  }

  lemma StepFacts(s: System, e: Event, out: set<Packet>, s': System)
    requires E.ElectionInv(s) && LogInv(s) && CreditInv(s) && Next(s, e, out, s')
    requires LogHypotheses(s, e) && InstallExtends(s, e)
    ensures CreditStep(s, e, out, s')
  {
    var p, n, n' := e.node, s.nodes[e.node], s'.nodes[e.node];
    StepTwinFacts(s, e, out, s');
    StepLogs(s, e, out, s');
    assert E.NodeInv(s, p) && NodeOK(s.reigns, p, n) && NodeCredit(s, p);
    NodeLogChange(s.reigns, s'.reigns, p, Electors(s, p, n'.term), n, e, n', out);
    NodeCredits(p, n, e, n', out);
  }

  lemma CreditStays(s: System, e: Event, out: set<Packet>, s': System, v: PeerId, t: Term, k: Index)
    requires CreditStep(s, e, out, s') && Credit(s, v, t, k)
    ensures Credit(s', v, t, k)
  {
    if v != e.node && s.nodes[v].term == t {
      assert s'.reigns[t].log[..k] == s.reigns[t].log[..k];
    }
  }

  lemma LeaderCredit(s: System, e: Event, out: set<Packet>, s': System)
    requires E.ElectionInv(s) && CreditInv(s) && CreditStep(s, e, out, s') && LogInv(s')
    requires s'.nodes[e.node].role.Leader? && s.nodes[e.node].role.Leader?
    ensures NodeCredit(s', e.node)
  {
    var p, n, n' := e.node, s.nodes[e.node], s'.nodes[e.node];
    assert NodeCredit(s, p);
    assert NodeOK(s'.reigns, p, n');
    forall v, k | VC.Credited(n'.role.roster, v, k)
      ensures Credit(s', v, n'.term, k)
    {
      if VC.Credited(n.role.roster, v, k) {
        CreditStays(s, e, out, s', v, n.term, k);
      } else if v == p && k == |n'.log| {
      } else {
        assert PacketCredit(s, Packet(e.src, p, e.msg));
        CreditStays(s, e, out, s', v, n.term, k);
      }
    }
  }

  /** The initial credit of a new leader. */
  lemma InitialCredit(s: System, e: Event, out: set<Packet>, s': System)
    requires E.ElectionInv(s) && TwinInv(s) && CreditStep(s, e, out, s')
    requires s'.nodes[e.node].role.Leader? && !s.nodes[e.node].role.Leader?
    ensures NodeCredit(s', e.node)
  {
    var p, n, n' := e.node, s.nodes[e.node], s'.nodes[e.node];
    assert CandidateTwins(s, p);
    forall v, k | VC.Credited(n'.role.roster, v, k)
      ensures Credit(s', v, n'.term, k)
    {
      assert Twin(s, v, p, n.term);
    }
  }

  lemma OtherCredit(s: System, e: Event, out: set<Packet>, s': System, q: PeerId)
    requires CreditInv(s) && CreditStep(s, e, out, s') && q in s.nodes && q != e.node
    ensures NodeCredit(s', q)
  {
    assert NodeCredit(s, q);
    var n := s.nodes[q];
    if n.role.Leader? {
      forall v, k | VC.Credited(n.role.roster, v, k)
        ensures Credit(s', v, n.term, k)
      {
        CreditStays(s, e, out, s', v, n.term, k);
      }
    }
  }

  lemma OldPacketCredit(s: System, e: Event, out: set<Packet>, s': System, k: Packet)
    requires CreditInv(s) && CreditStep(s, e, out, s') && k in s.net
    ensures PacketCredit(s', k)
  {
    assert PacketCredit(s, k);
    if k.msg.AppendEntriesResponse? && k.msg.vote.Granted? {
      CreditStays(s, e, out, s', k.src, k.msg.term, k.msg.lastLogIndex);
    }
  }

  lemma NewPacketCredit(s: System, e: Event, out: set<Packet>, s': System, k: Packet)
    requires CreditStep(s, e, out, s') && k in out
    ensures PacketCredit(s', k)
  {
    var n' := s'.nodes[e.node];
    assert CreditPacket(e.node, s.reigns, n', k);
    if k.msg.AppendEntriesResponse? && k.msg.vote.Granted? {
      assert n'.log[..|n'.log|] == n'.log;
      assert s'.reigns[n'.term].log[..|n'.log|] == s.reigns[n'.term].log[..|n'.log|] == n'.log;
    }
  }

  lemma StepCredits(s: System, e: Event, out: set<Packet>, s': System)
    requires E.ElectionInv(s) && LogInv(s) && TwinInv(s) && CreditInv(s) && Next(s, e, out, s')
    requires LogHypotheses(s, e) && InstallExtends(s, e)
    ensures CreditInv(s')
  {
    StepFacts(s, e, out, s');
    StepLogs(s, e, out, s');
    forall q | q in s'.nodes
      ensures NodeCredit(s', q)
    {
      if q != e.node {
        OtherCredit(s, e, out, s', q);
      } else if s'.nodes[q].role.Leader? {
        if s.nodes[q].role.Leader? {
          LeaderCredit(s, e, out, s');
        } else {
          InitialCredit(s, e, out, s');
        }
      }
    }
    forall k | k in s'.net
      ensures PacketCredit(s', k)
    {
      if k in s.net {
        OldPacketCredit(s, e, out, s', k);
      } else {
        NewPacketCredit(s, e, out, s', k);
      }
    }
  }

  // ---------------------------------------------------------------- whole runs

  ghost predicate CreditHypothesesAt(start: System, steps: seq<Taken>, i: nat)
    requires i < |steps|
  {
    && steps[i].event.node in StateAt(start, steps, i).nodes
    && LogHypotheses(StateAt(start, steps, i), steps[i].event)
    && InstallExtends(StateAt(start, steps, i), steps[i].event)
  }

  ghost predicate CreditHypothesesUpTo(start: System, steps: seq<Taken>, n: nat)
    requires n <= |steps|
  {
    forall i :: 0 <= i < n ==> CreditHypothesesAt(start, steps, i)
  }

  lemma {:induction false} CreditsUpTo(start: System, steps: seq<Taken>, n: nat)
    requires Run(start, steps) && n <= |steps| && CreditHypothesesUpTo(start, steps, n)
    ensures CreditInv(StateAt(start, steps, n))
  {
    if n == 0 {
      InitCredit(start);
    } else {
      CreditsUpTo(start, steps, n - 1);
      LogHypothesesToo(start, steps, n - 1);
      TwinsUpTo(start, steps, n - 1);
      assert TakenAt(start, steps, n - 1) && CreditHypothesesAt(start, steps, n - 1);
      StepCredits(StateAt(start, steps, n - 1), steps[n - 1].event, steps[n - 1].out, steps[n - 1].state);
    }
  }

  lemma LogHypothesesToo(start: System, steps: seq<Taken>, n: nat)
    requires n <= |steps| && CreditHypothesesUpTo(start, steps, n)
    ensures HypothesesUpTo(start, steps, n)
  {
    assert forall i :: 0 <= i < n && CreditHypothesesAt(start, steps, i) ==> HypothesesAt(start, steps, i);
  }

  /** A leader's commit index moves only to an index that a strict majority of its committee has acknowledged. */
  lemma CommitNeedsQuorum(p: PeerId, n: Node, e: Event, n': Node, out: set<Packet>)
    requires e.node == p && NodeStep(p, n, e, n', out) && n.role.Leader? && n'.role.Leader? && n.committed < n'.committed
    ensures VC.StrictMajority(VC.Acked(n'.role.roster.voters, n'.committed), n'.role.roster.voters.Keys)
  {
    assert VC.IsQuorumIndex(e.env.roster.voters, e.env.quorum);
    LowerIndexSameMajority(n'.role.roster.voters, e.env.quorum, n'.committed);
  }

  lemma LowerIndexSameMajority(voters: map<PeerId, Index>, k: Index, j: Index)
    requires j <= k && VC.StrictMajority(VC.Acked(voters, k), voters.Keys)
    ensures VC.StrictMajority(VC.Acked(voters, j), voters.Keys)
  {
    assert VC.Acked(voters, k) <= VC.Acked(voters, j);
    var rest := VC.Acked(voters, j) - VC.Acked(voters, k);
    assert VC.Acked(voters, j) == VC.Acked(voters, k) + rest;
  }

  /** Index `k` is backed by the committee of leader `p`: a strict majority acknowledged it, truthfully. */
  ghost predicate Backed(s: System, p: PeerId, k: Index)
    requires p in s.nodes && s.nodes[p].role.Leader?
  {
    var voters := s.nodes[p].role.roster.voters;
    && VC.StrictMajority(VC.Acked(voters, k), voters.Keys)
    && forall v :: v in VC.Acked(voters, k) ==> Credit(s, v, s.nodes[p].term, k)
  }

  lemma AckedIsCredited(s: System, p: PeerId, k: Index, v: PeerId)
    requires p in s.nodes && s.nodes[p].role.Leader? && NodeCredit(s, p)
    requires v in VC.Acked(s.nodes[p].role.roster.voters, k)
    ensures Credit(s, v, s.nodes[p].term, k)
  {
    var voters := s.nodes[p].role.roster.voters;
    assert VC.Credited(s.nodes[p].role.roster, v, voters[v]);
    SmallerCredit(s, v, s.nodes[p].term, voters[v], k);
  }

  lemma MajorityBacks(s: System, p: PeerId, k: Index)
    requires p in s.nodes && s.nodes[p].role.Leader? && CreditInv(s)
    requires VC.StrictMajority(VC.Acked(s.nodes[p].role.roster.voters, k), s.nodes[p].role.roster.voters.Keys)
    ensures Backed(s, p, k)
  {
    forall v | v in VC.Acked(s.nodes[p].role.roster.voters, k)
      ensures Credit(s, v, s.nodes[p].term, k)
    {
      assert NodeCredit(s, p);
      AckedIsCredited(s, p, k, v);
    }
  }

  /**
   * Every commit is backed: whenever a leader's commit index advances, a strict majority of its
   * committee has acknowledged it, and each of these members agrees with the leader's log up to the new
   * commit index or has already moved on to a later term.
   */
  lemma CommitsAreBacked(start: System, steps: seq<Taken>, i: nat)
    requires Run(start, steps) && i < |steps| && CreditHypothesesUpTo(start, steps, i + 1)
    ensures var s, p, s' := StateAt(start, steps, i), steps[i].event.node, steps[i].state;
            && p in s.nodes && p in s'.nodes
            && (s.nodes[p].role.Leader? && s'.nodes[p].role.Leader? && s.nodes[p].committed < s'.nodes[p].committed
                ==> Backed(s', p, s'.nodes[p].committed))
  {
    CreditsUpTo(start, steps, i + 1);
    assert TakenAt(start, steps, i);
    var s, p, s' := StateAt(start, steps, i), steps[i].event.node, steps[i].state;
    if s.nodes[p].role.Leader? && s'.nodes[p].role.Leader? && s.nodes[p].committed < s'.nodes[p].committed {
      CommitNeedsQuorum(p, s.nodes[p], steps[i].event, s'.nodes[p], steps[i].out);
      MajorityBacks(s', p, s'.nodes[p].committed);
    }
  }

  lemma SmallerCredit(s: System, v: PeerId, t: Term, k: Index, j: Index)
    requires Credit(s, v, t, k) && j <= k
    ensures Credit(s, v, t, j)
  {
    if s.nodes[v].term == t {
      assert s.nodes[v].log[..j] == s.nodes[v].log[..k][..j];
      assert s.reigns[t].log[..j] == s.reigns[t].log[..k][..j];
    }
  }
}
