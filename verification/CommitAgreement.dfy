/**
 * What nodes apply. Every node feeds its state machine each log entry once, in index order; and what a
 * follower newly applies is what the leader of the term had already committed at that index.
 */
module CommitAgreement {
  import opened RaftTypes
  import opened FullLog
  import opened AppendPlacement
  import opened RaftProtocol
  import opened LogMatching
  import E = ElectionSafety

  /** The applied commands are exactly the log up to the commit index. */
  ghost predicate Applied(n: Node) {
    n.committed <= |n.log| && n.applied == n.log[..n.committed]
  }

  ghost predicate CommitMessageOK(R: Reigns, m: Message) {
    m.AppendEntries? ==> m.leaderCommit <= m.prev.index && m.term in R && m.leaderCommit <= R[m.term].commit
  }

  ghost predicate LeaderCommitOK(R: Reigns, n: Node) {
    n.role.Leader? ==> n.term in R && R[n.term].commit == n.committed
  }

  ghost predicate CommitInv(s: System) {
    && (forall p :: p in s.nodes ==> Applied(s.nodes[p]) && LeaderCommitOK(s.reigns, s.nodes[p]))
    && (forall k :: k in s.net ==> CommitMessageOK(s.reigns, k.msg))
  }

  ghost predicate CommitHypotheses(s: System, e: Event)
    requires e.node in s.nodes
  {
    LogHypotheses(s, e) && KeepsCommitted(s, e)
  }

  lemma InitCommits(s: System)
    requires Init(s)
    ensures CommitInv(s)
  {
  }

  lemma CommitApplies(n: Node, index: Index)
    requires Applied(n)
    ensures Applied(CommitUpTo(n, index)) && n.committed <= CommitUpTo(n, index).committed
  {
    var hi := Min(index, |n.log|);
    if n.committed < hi {
      assert n.log[..n.committed] + n.log[n.committed..hi] == n.log[..hi];
    }
  }

  /** A follower that never truncates committed entries keeps applying each entry once. */
  lemma AppendApplies(n: Node, m: Message)
    requires Applied(n) && n.role.Follower? && m.AppendEntries?
    requires n.committed <= |Reconciled(n.log, n.base, m.prev, m.entries)|
    ensures Applied(OnAppendEntries(n, m)) && n.committed <= OnAppendEntries(n, m).committed
  {
    var kept := Reconciled(n.log, n.base, m.prev, m.entries);
    var r := if Consistent(n.log, n.base, m.prev) then Accepted(n.log, n.base, m.prev, m.entries) else kept;
    assert kept <= n.log && kept <= r;
    assert r[..n.committed] == kept[..n.committed] == n.log[..n.committed];
    if Consistent(n.log, n.base, m.prev) {
      CommitApplies(n.(role := n.role.(leader := Some(m.leader)), log := r), m.leaderCommit);
    }
  }

  lemma HandlesApplies(p: PeerId, n: Node, src: PeerId, m: Message, env: Env, n': Node, out: set<Packet>)
    requires Applied(n) && Handles(p, n, src, m, env, n', out)
    requires m.AppendEntries? && n.role.Follower? ==> n.committed <= |Reconciled(n.log, n.base, m.prev, m.entries)|
    ensures Applied(n') && n.committed <= n'.committed
    ensures forall k :: k in out ==> !k.msg.AppendEntries?
  {
    match m
    case RequestVote(_, _, _) =>
    case RequestVoteResponse(_, _) =>
    case AppendEntries(_, _, _, _, _) =>
      if n.role.Follower? {
        AppendApplies(n, m);
      }
    case AppendEntriesResponse(_, _, _) =>
      if n.role.Leader? {
        CommitApplies(n.(role := n.role.(roster := env.roster)), env.quorum);
      }
  }

  lemma FlushApplies(p: PeerId, n: Node, sent: bool, env: Env, n': Node, out: set<Packet>)
    requires Applied(n) && n.role.Leader? && Flushes(p, n, sent, env, n', out)
    ensures Applied(n') && n.committed <= n'.committed
    ensures forall k :: k in out ==> k.msg.AppendEntries? && k.msg.term == n.term && k.msg.leaderCommit == n.committed <= k.msg.prev.index
  {
    if sent {
      var log := n.log + WithTerm(n.term, n.role.queue);
      assert log[..n.committed] == n.log[..n.committed];
      CommitApplies(n.(log := log, role := n.role.(queue := [], roster := env.roster)), env.quorum);
    }
  }

  /** Facts about one step: what the node has applied, and the commit index it announces. */
  ghost predicate AppliesStep(n: Node, e: Event, n': Node, out: set<Packet>) {
    && Applied(n')
    && (!e.Install? ==> n.committed <= n'.committed)
    && (forall k :: k in out && k.msg.AppendEntries? ==>
          n.role.Leader? && n'.role.Leader? && k.msg.term == n.term && k.msg.leaderCommit == n.committed <= k.msg.prev.index)
  }

  lemma NodeApplies(p: PeerId, n: Node, e: Event, n': Node, out: set<Packet>)
    requires Applied(n) && NodeStep(p, n, e, n', out)
    requires e.Receive? && FollowsUp(n, e.msg) ==> n.committed <= |Reconciled(n.log, n.base, e.msg.prev, e.msg.entries)|
    ensures AppliesStep(n, e, n', out)
  {
    match e
    case Receive(_, src, m, env) =>
      if n.term <= m.term {
        HandlesApplies(p, StepDown(n, m), src, m, env, n', out);
      }
    case Timeout(_, _) =>
    case Win(_) =>
    case Enqueue(_, _) =>
    case Flush(_, sent, env) => FlushApplies(p, n, sent, env, n', out);
    case Heartbeat(_, _) =>
    case Prune(_, _) =>
    case Offer(_, _) =>
    case Install(_, prefix) =>
      assert n'.log[..|prefix|] == prefix;
  }

  // ---------------------------------------------------------------- exactly once, in order

  ghost predicate CommittedKept(start: System, steps: seq<Taken>, i: nat)
    requires i < |steps|
  {
    steps[i].event.node in StateAt(start, steps, i).nodes && KeepsCommitted(StateAt(start, steps, i), steps[i].event)
  }

  ghost predicate CommittedKeptUpTo(start: System, steps: seq<Taken>, n: nat)
    requires n <= |steps|
  {
    forall i :: 0 <= i < n ==> CommittedKept(start, steps, i)
  }

  /** Pruning stays behind the commit index. */
  lemma PruningStaysBehind(p: PeerId, n: Node, e: Event, n': Node, out: set<Packet>)
    requires n.base <= n.committed && NodeStep(p, n, e, n', out) && (!e.Install? ==> n.committed <= n'.committed)
    ensures n'.base <= n'.committed
  {
  }

  /**
   * Exactly-once ordered apply, over every run that truncates nothing committed, rival leaders and all: the machine
   * was fed the log up to the commit index, entry by entry.
   */
  lemma {:induction false} ExactlyOnceInOrder(start: System, steps: seq<Taken>, n: nat, p: PeerId)
    requires Run(start, steps) && n <= |steps| && CommittedKeptUpTo(start, steps, n)
    requires p in StateAt(start, steps, n).nodes
    ensures var a := StateAt(start, steps, n).nodes[p];
            a.base <= a.committed <= |a.log| && a.applied == a.log[..a.committed]
  {
    if n > 0 {
      assert TakenAt(start, steps, n - 1) && CommittedKept(start, steps, n - 1);
      var s, taken := StateAt(start, steps, n - 1), steps[n - 1];
      var e, s' := taken.event, taken.state;
      assert p in s.nodes;
      ExactlyOnceInOrder(start, steps, n - 1, p);
      if p == e.node {
        NodeApplies(p, s.nodes[p], e, s'.nodes[p], taken.out);
        PruningStaysBehind(p, s.nodes[p], e, s'.nodes[p], taken.out);
      }
    }
  }

  lemma NewAnnouncement(s: System, e: Event, out: set<Packet>, s': System, k: Packet)
    requires Next(s, e, out, s') && Applied(s.nodes[e.node]) && KeepsCommitted(s, e) && k in s'.net && k !in s.net
    ensures k.msg.AppendEntries? ==> k.msg.leaderCommit <= k.msg.prev.index
  {
    NodeApplies(e.node, s.nodes[e.node], e, s'.nodes[e.node], out);
  }

  lemma AnnouncedAt(start: System, steps: seq<Taken>, i: nat, k: Packet)
    requires Run(start, steps) && i < |steps| && CommittedKeptUpTo(start, steps, i + 1)
    requires k in steps[i].state.net && k !in StateAt(start, steps, i).net
    ensures k.msg.AppendEntries? ==> k.msg.leaderCommit <= k.msg.prev.index
  {
    assert TakenAt(start, steps, i) && CommittedKept(start, steps, i);
    ExactlyOnceInOrder(start, steps, i, steps[i].event.node);
    NewAnnouncement(StateAt(start, steps, i), steps[i].event, steps[i].out, steps[i].state, k);
  }

  /** In the same runs, every AppendEntries ever sent announces a commit no further than the entry it follows. */
  lemma {:induction false} AnnouncedBehindPrev(start: System, steps: seq<Taken>, n: nat, k: Packet)
    requires Run(start, steps) && n <= |steps| && CommittedKeptUpTo(start, steps, n)
    requires k in StateAt(start, steps, n).net && k.msg.AppendEntries?
    ensures k.msg.leaderCommit <= k.msg.prev.index
  {
    if n > 0 {
      if k in StateAt(start, steps, n - 1).net {
        AnnouncedBehindPrev(start, steps, n - 1, k);
      } else {
        AnnouncedAt(start, steps, n - 1, k);
      }
    }
  }

  // ---------------------------------------------------------------- agreement with the leader

  lemma LeadersAgree(s: System, e: Event, out: set<Packet>, s': System, q: PeerId)
    requires E.ElectionInv(s) && CommitInv(s) && E.VoteStep(s, e, out, s') && OneLeader(s, e) && Applied(s'.nodes[e.node])
    requires q in s'.nodes
    ensures Applied(s'.nodes[q]) && LeaderCommitOK(s'.reigns, s'.nodes[q])
  {
    if q != e.node {
      assert LeaderCommitOK(s.reigns, s.nodes[q]);
      assert E.NodeInv(s, q) && E.NodeInv(s, e.node);
    }
  }

  lemma AnnouncedCommits(s: System, e: Event, out: set<Packet>, s': System, k: Packet)
    requires E.ElectionInv(s) && CommitInv(s) && E.VoteStep(s, e, out, s') && OneLeader(s, e)
    requires !e.Install? || !s.nodes[e.node].role.Leader?
    requires AppliesStep(s.nodes[e.node], e, s'.nodes[e.node], out) && k in s'.net
    ensures CommitMessageOK(s'.reigns, k.msg)
  {
    assert E.NodeInv(s, e.node);
    if k in s.net {
      assert CommitMessageOK(s.reigns, k.msg);
    }
  }

  lemma StepCommits(s: System, e: Event, out: set<Packet>, s': System)
    requires E.ElectionInv(s) && CommitInv(s) && Next(s, e, out, s') && OneLeader(s, e) && KeepsCommitted(s, e)
    ensures CommitInv(s')
  {
    var n, n' := s.nodes[e.node], s'.nodes[e.node];
    NodeApplies(e.node, n, e, n', out);
    E.StepVotes(s, e, out, s');
    forall q | q in s'.nodes
      ensures Applied(s'.nodes[q]) && LeaderCommitOK(s'.reigns, s'.nodes[q])
    {
      LeadersAgree(s, e, out, s', q);
    }
    forall k | k in s'.net
      ensures CommitMessageOK(s'.reigns, k.msg)
    {
      AnnouncedCommits(s, e, out, s', k);
    }
  }

  /**
   * Follower commit agreement: whatever a follower newly applies on a leader's message is the leader's
   * own entry at that index, at or below the commit index the leader had when it sent the message.
   */
  lemma FollowerCommitAgreement(s: System, e: Event, out: set<Packet>, s': System)
    requires LogInv(s) && CommitInv(s) && Next(s, e, out, s') && CommitHypotheses(s, e)
    requires e.Receive? && FollowsUp(s.nodes[e.node], e.msg)
    ensures var n, n', lead := s.nodes[e.node], s'.nodes[e.node], s.reigns[e.msg.term];
            n.committed < n'.committed ==>
              && n'.committed <= e.msg.leaderCommit <= lead.commit
              && n'.committed <= |lead.log|
              && n'.applied == lead.log[..n'.committed]
  {
    var n, m := s.nodes[e.node], e.msg;
    assert NodeOK(s.reigns, e.node, n);
    assert MessageOK(s.reigns, m) && CommitMessageOK(s.reigns, m);
    NewlyApplied(s.reigns, e.node, StepDown(n, m), m);
  }

  /** The same, for the follower alone. */
  lemma NewlyApplied(R: Reigns, p: PeerId, n: Node, m: Message)
    requires ReignsOK(R) && NodeOK(R, p, n) && Applied(n) && n.role.Follower? && n.term == m.term
    requires m.AppendEntries? && MessageOK(R, m) && CommitMessageOK(R, m)
    requires n.committed <= |Reconciled(n.log, n.base, m.prev, m.entries)|
    requires m.entries != [] && m.prev.index == 0 ==> n.base == 0
    ensures var n' := OnAppendEntries(n, m);
            n.committed < n'.committed ==>
              n'.committed <= m.leaderCommit && n'.committed <= |R[m.term].log| && n'.applied == R[m.term].log[..n'.committed]
  {
    if Consistent(n.log, n.base, m.prev) {
      var n' := OnAppendEntries(n, m);
      AppendApplies(n, m);
      ConsistentPrefix(R, n.log, n.base, m);
      if m.entries != [] {
        AcceptedFollowsLeader(R, n.log, n.base, m);
      }
      AgreesUpTo(n'.log, R[m.term].log, m.prev.index, n'.committed);
    }
  }

  lemma AgreesUpTo(a: Log, b: Log, k: nat, i: nat)
    requires k <= |a| && k <= |b| && a[..k] == b[..k]
    ensures i <= k ==> a[..i] == b[..i]
  {
    if i <= k {
      assert a[..i] == a[..k][..i] && b[..i] == b[..k][..i];
    }
  }

  // ---------------------------------------------------------------- whole runs

  ghost predicate CommitHypothesesAt(start: System, steps: seq<Taken>, i: nat)
    requires i < |steps|
  {
    steps[i].event.node in StateAt(start, steps, i).nodes && CommitHypotheses(StateAt(start, steps, i), steps[i].event)
  }

  ghost predicate CommitHypothesesUpTo(start: System, steps: seq<Taken>, n: nat)
    requires n <= |steps|
  {
    forall i :: 0 <= i < n ==> CommitHypothesesAt(start, steps, i)
  }

  ghost predicate LeadsAndKeepsAt(start: System, steps: seq<Taken>, i: nat)
    requires i < |steps|
  {
    CommittedKept(start, steps, i) && OneLeader(StateAt(start, steps, i), steps[i].event)
  }

  ghost predicate LeadsAndKeepsUpTo(start: System, steps: seq<Taken>, n: nat)
    requires n <= |steps|
  {
    forall i :: 0 <= i < n ==> LeadsAndKeepsAt(start, steps, i)
  }

  lemma {:induction false} AnnouncedUpTo(start: System, steps: seq<Taken>, n: nat)
    requires Run(start, steps) && n <= |steps| && LeadsAndKeepsUpTo(start, steps, n)
    ensures var s := StateAt(start, steps, n); E.ElectionInv(s) && CommitInv(s)
  {
    if n == 0 {
      E.InitElections(start);
      InitCommits(start);
    } else {
      AnnouncedUpTo(start, steps, n - 1);
      assert TakenAt(start, steps, n - 1) && LeadsAndKeepsAt(start, steps, n - 1);
      var s, taken := StateAt(start, steps, n - 1), steps[n - 1];
      E.StepElections(s, taken.event, taken.out, taken.state);
      StepCommits(s, taken.event, taken.out, taken.state);
    }
  }

  lemma CommitsUpTo(start: System, steps: seq<Taken>, n: nat)
    requires Run(start, steps) && n <= |steps| && CommitHypothesesUpTo(start, steps, n)
    ensures LogInv(StateAt(start, steps, n)) && CommitInv(StateAt(start, steps, n))
  {
    forall i | 0 <= i < n
      ensures LeadsAndKeepsAt(start, steps, i) && HypothesesAt(start, steps, i)
    {
      assert CommitHypothesesAt(start, steps, i);
    }
    AnnouncedUpTo(start, steps, n);
    LogsUpTo(start, steps, n);
  }

  /** Follower commit agreement at every step of every run. */
  lemma FollowersApplyWhatLeadersCommitted(start: System, steps: seq<Taken>, i: nat)
    requires Run(start, steps) && i < |steps| && CommitHypothesesUpTo(start, steps, i + 1)
    ensures var s, e, s' := StateAt(start, steps, i), steps[i].event, steps[i].state;
            && e.node in s.nodes && e.node in s'.nodes
            && (e.Receive? && FollowsUp(s.nodes[e.node], e.msg) && s.nodes[e.node].committed < s'.nodes[e.node].committed ==>
                  && e.msg.term in s.reigns
                  && s'.nodes[e.node].committed <= e.msg.leaderCommit <= s.reigns[e.msg.term].commit
                  && s'.nodes[e.node].applied <= s.reigns[e.msg.term].log)
  {
    CommitsUpTo(start, steps, i);
    assert TakenAt(start, steps, i) && CommitHypothesesAt(start, steps, i);
    var s, taken := StateAt(start, steps, i), steps[i];
    if taken.event.Receive? && FollowsUp(s.nodes[taken.event.node], taken.event.msg) {
      assert MessageOK(s.reigns, taken.event.msg);
      FollowerCommitAgreement(s, taken.event, taken.out, taken.state);
    }
  }

  /** With one leader per term, what a message announces is also no further than what the leader of its term committed. */
  lemma AnnouncedCommitsAreBounded(start: System, steps: seq<Taken>, n: nat, k: Packet)
    requires Run(start, steps) && n <= |steps| && LeadsAndKeepsUpTo(start, steps, n)
    requires k in StateAt(start, steps, n).net && k.msg.AppendEntries?
    ensures k.msg.leaderCommit <= k.msg.prev.index
    ensures var s := StateAt(start, steps, n); k.msg.term in s.reigns && k.msg.leaderCommit <= s.reigns[k.msg.term].commit
  {
    AnnouncedUpTo(start, steps, n);
    assert CommitMessageOK(StateAt(start, steps, n).reigns, k.msg);
  }
}
