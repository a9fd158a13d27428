/**
 * Log Matching: with at most one leader per term, two logs that hold an entry of the same index and
 * term are identical up to it. Every log is tied to the logs of the leaders whose entries it holds.
 */
module LogMatching {
  import opened RaftTypes
  import opened FullLog
  import opened CatchUpBuffer
  import opened AppendPlacement
  import opened RaftProtocol
  import E = ElectionSafety

  type Reigns = map<Term, Reign>

  // ---------------------------------------------------------------- logs and leaders' logs

  /** Up to entry `i` the log is the log of the leader of the entry's term. */
  ghost predicate EntryOK(R: Reigns, log: Log, i: nat)
    requires i < |log|
  {
    var t := log[i].term;
    t in R && i < |R[t].log| && log[..i + 1] == R[t].log[..i + 1]
  }

  ghost predicate LogOK(R: Reigns, log: Log) {
    forall i :: 0 <= i < |log| ==> EntryOK(R, log, i)
  }

  ghost predicate ReignOK(R: Reigns, t: Term)
    requires t in R
  {
    LogOK(R, R[t].log) && NondecreasingTerms(R[t].log) && TermsBoundedBy(R[t].log, t)
  }

  ghost predicate ReignsOK(R: Reigns) {
    forall t :: t in R ==> ReignOK(R, t)
  }

  /** Two logs with an entry of the same index and term agree up to it. */
  lemma Matched(R: Reigns, a: Log, b: Log, i: nat)
    requires LogOK(R, a) && LogOK(R, b) && i < |a| && i < |b| && a[i].term == b[i].term
    ensures a[..i + 1] == b[..i + 1]
  {
    assert EntryOK(R, a, i) && EntryOK(R, b, i);
  }

  lemma WholeLog(R: Reigns, log: Log)
    requires LogOK(R, log) && log != []
    ensures var t := log[|log| - 1].term; t in R && log <= R[t].log
  {
    assert EntryOK(R, log, |log| - 1);
    assert log[..|log|] == log;
  }

  lemma PrefixOK(R: Reigns, log: Log, part: Log)
    requires LogOK(R, log) && part <= log
    ensures LogOK(R, part)
  {
    forall i | 0 <= i < |part|
      ensures EntryOK(R, part, i)
    {
      assert EntryOK(R, log, i);
      assert part[..i + 1] == log[..i + 1];
    }
  }

  lemma TermsInOrder(R: Reigns, log: Log)
    requires ReignsOK(R) && LogOK(R, log)
    ensures NondecreasingTerms(log)
  {
    if log != [] {
      WholeLog(R, log);
      assert ReignOK(R, log[|log| - 1].term);
    }
  }

  /** A log whose last entry is of term `t` is a prefix of that term's leader log. */
  lemma PrefixByTerm(R: Reigns, log: Log, from: nat, t: Term)
    requires ReignsOK(R) && LogOK(R, log) && TermsBoundedBy(log, t)
    requires from < |log| && log[from].term == t
    ensures t in R && log <= R[t].log
  {
    TermsInOrder(R, log);
    WholeLog(R, log);
  }

  // ---------------------------------------------------------------- growing histories

  ghost predicate Grows(R: Reigns, R': Reigns) {
    forall t :: t in R ==> t in R' && R[t].log <= R'[t].log && R'[t].leader == R[t].leader
  }

  lemma LogStaysOK(R: Reigns, R': Reigns, log: Log)
    requires Grows(R, R') && LogOK(R, log)
    ensures LogOK(R', log)
  {
    forall i | 0 <= i < |log|
      ensures EntryOK(R', log, i)
    {
      assert EntryOK(R, log, i);
    }
  }

  // ---------------------------------------------------------------- messages and nodes

  /** An AppendEntries message is a slice of its term's leader log, all of that term. */
  ghost predicate MessageOK(R: Reigns, m: Message) {
    m.AppendEntries? ==>
      && m.term in R
      && m.prev.index + |m.entries| <= |R[m.term].log|
      && m.prev == CursorAt(R[m.term].log, m.prev.index)
      && m.entries == R[m.term].log[m.prev.index..m.prev.index + |m.entries|]
      && AllOfTerm(m.entries, m.term)
  }

  ghost predicate BufferedOK(R: Reigns, t: Term, x: Buffered<Command>) {
    t in R && 1 <= x.index <= |R[t].log| && x.entry == R[t].log[x.index - 1]
  }

  ghost predicate RoleOK(R: Reigns, p: PeerId, n: Node) {
    match n.role
    case Leader(_, _) => n.term in R && R[n.term].leader == p && R[n.term].log == n.log
    case Follower(_, catchup) =>
      catchup.Some? ==> n.term in R && forall i :: 0 <= i < |catchup.value| ==> BufferedOK(R, n.term, catchup.value[i])
    case Candidate(_) => true
  }

  ghost predicate NodeOK(R: Reigns, p: PeerId, n: Node) {
    n.base <= n.committed && n.base <= |n.log| && LogOK(R, n.log) && TermsBoundedBy(n.log, n.term) && RoleOK(R, p, n)
  }

  // ---------------------------------------------------------------- receiving a batch

  /** The follower's log and the leader's agree up to the position the batch follows. */
  lemma ConsistentPrefix(R: Reigns, log: Log, base: Index, m: Message)
    requires ReignsOK(R) && LogOK(R, log) && m.AppendEntries? && MessageOK(R, m)
    requires Consistent(log, base, m.prev)
    ensures m.prev.index <= |log| && log[..m.prev.index] == R[m.term].log[..m.prev.index]
  {
    var k := m.prev.index;
    assert ReignOK(R, m.term);
    if k > 0 {
      Matched(R, log, R[m.term].log, k - 1);
    }
  }

  /** A log holding the batch's first position in the batch's term already follows the leader of that term. */
  lemma OverlayFollowsLeader(R: Reigns, log: Log, m: Message)
    requires ReignsOK(R) && LogOK(R, log) && m.AppendEntries? && MessageOK(R, m) && TermsBoundedBy(log, m.term)
    requires m.entries != [] && m.prev.index <= |log| && log[..m.prev.index] == R[m.term].log[..m.prev.index]
    ensures Overlay(log, m.prev.index, m.entries) <= R[m.term].log
  {
    var k, whole := m.prev.index, R[m.term].log;
    if k < |log| && log[k].term == m.entries[0].term {
      PrefixByTerm(R, log, k, m.term);
    }
    OverlayOfSlice(log, k, m.entries, whole);
  }

  /** Accepting a non-empty batch makes the log a prefix of the leader's, at least up to the batch's end. */
  lemma AcceptedFollowsLeader(R: Reigns, log: Log, base: Index, m: Message)
    requires ReignsOK(R) && LogOK(R, log) && m.AppendEntries? && MessageOK(R, m) && TermsBoundedBy(log, m.term)
    requires base <= |log| && m.entries != [] && (m.prev.index == 0 ==> base == 0)
    requires Consistent(log, base, m.prev)
    ensures var r := Accepted(log, base, m.prev, m.entries);
            r <= R[m.term].log && m.prev.index + |m.entries| <= |r| && base <= |r|
  {
    ConsistentPrefix(R, log, base, m);
    TermsInOrder(R, log);
    AcceptedIsOverlay(log, base, m.prev, m.entries, m.term);
    OverlayFollowsLeader(R, log, m);
    OverlayIsPlaced(log, m.prev.index, m.entries, m.term);
  }

  lemma BatchIsBuffered(R: Reigns, m: Message, i: nat)
    requires m.AppendEntries? && MessageOK(R, m) && i < |m.entries|
    ensures BufferedOK(R, m.term, Numbered(m.prev.index, m.entries)[i])
  {
  }

  lemma AcceptKeepsOK(R: Reigns, p: PeerId, n: Node, m: Message)
    requires ReignsOK(R) && NodeOK(R, p, n) && n.role.Follower? && m.AppendEntries? && MessageOK(R, m)
    requires n.term == m.term && (m.entries != [] && m.prev.index == 0 ==> n.base == 0)
    requires Consistent(n.log, n.base, m.prev)
    ensures NodeOK(R, p, OnAppendEntries(n, m))
  {
    assert ReignOK(R, m.term);
    var r := Accepted(n.log, n.base, m.prev, m.entries);
    if m.entries != [] {
      AcceptedFollowsLeader(R, n.log, n.base, m);
      PrefixOK(R, R[m.term].log, r);
    } else {
      assert r == n.log;
    }
  }

  lemma CatchUpKeepsOK(R: Reigns, p: PeerId, n: Node, m: Message)
    requires ReignsOK(R) && NodeOK(R, p, n) && n.role.Follower? && m.AppendEntries? && MessageOK(R, m)
    requires n.term == m.term && !Consistent(n.log, n.base, m.prev)
    ensures NodeOK(R, p, OnAppendEntries(n, m))
  {
    PrefixOK(R, n.log, Reconciled(n.log, n.base, m.prev, m.entries));
    forall i | 0 <= i < |m.entries|
      ensures BufferedOK(R, m.term, Numbered(m.prev.index, m.entries)[i])
    {
      BatchIsBuffered(R, m, i);
    }
  }

  // ---------------------------------------------------------------- steps of a node

  /** The history after node `p` has become `n'`. */
  function Recorded(R: Reigns, p: PeerId, voters: set<PeerId>, n': Node): Reigns {
    if n'.role.Leader? then R[n'.term := Reign(p, voters, n'.log, n'.committed)] else R
  }

  ghost predicate MessagesOK(R: Reigns, out: set<Packet>) {
    forall k :: k in out ==> MessageOK(R, k.msg)
  }

  /** What a step of a node must establish. */
  ghost predicate StepOK(R: Reigns, p: PeerId, voters: set<PeerId>, n': Node, out: set<Packet>) {
    var R' := Recorded(R, p, voters, n');
    ReignsOK(R') && Grows(R, R') && NodeOK(R', p, n') && MessagesOK(R', out)
  }

  /** A new leader's log becomes the log of its term. */
  lemma CrownKeepsOK(R: Reigns, t: Term, r: Reign)
    requires ReignsOK(R) && t !in R && LogOK(R, r.log) && TermsBoundedBy(r.log, t)
    ensures ReignsOK(R[t := r]) && Grows(R, R[t := r])
  {
    var R' := R[t := r];
    TermsInOrder(R, r.log);
    forall u | u in R'
      ensures ReignOK(R', u)
    {
      assert u != t ==> ReignOK(R, u);
      LogStaysOK(R, R', R'[u].log);
    }
  }

  /** A leader extends the log of its term with entries of its term. */
  lemma ExtendKeepsOK(R: Reigns, t: Term, r: Reign, batch: Log)
    requires ReignsOK(R) && t in R && r.leader == R[t].leader && r.log == R[t].log + batch && AllOfTerm(batch, t)
    ensures ReignsOK(R[t := r]) && Grows(R, R[t := r])
  {
    var R' := R[t := r];
    assert Grows(R, R');
    forall u | u in R'
      ensures ReignOK(R', u)
    {
      assert ReignOK(R, u);
      LogStaysOK(R, R', R[u].log);
      if u == t {
        forall i | 0 <= i < |r.log|
          ensures EntryOK(R', r.log, i)
        {
          if i < |R[t].log| {
            assert EntryOK(R', R[t].log, i);
            assert r.log[..i + 1] == R[t].log[..i + 1];
          }
        }
      }
    }
  }

  /** A leader that keeps its log, whatever it does to its committee, queue and commit index. */
  lemma LeaderKeepsOK(R: Reigns, p: PeerId, voters: set<PeerId>, n: Node, n': Node)
    requires ReignsOK(R) && NodeOK(R, p, n) && n.role.Leader? && n'.role.Leader?
    requires n'.term == n.term && n'.log == n.log && n'.base == n.base && n.committed <= n'.committed
    ensures StepOK(R, p, voters, n', {})
  {
    ExtendKeepsOK(R, n.term, Reign(p, voters, n'.log, n'.committed), []);
    LogStaysOK(R, Recorded(R, p, voters, n'), n.log);
  }

  lemma HandlesOK(R: Reigns, p: PeerId, voters: set<PeerId>, n: Node, src: PeerId, m: Message, env: Env, n': Node, out: set<Packet>)
    requires ReignsOK(R) && NodeOK(R, p, n) && MessageOK(R, m) && n.term == m.term
    requires n.role.Candidate? ==> !m.AppendEntries?
    requires m.AppendEntries? && n.role.Follower? && m.entries != [] && m.prev.index == 0 ==> n.base == 0
    requires Handles(p, n, src, m, env, n', out)
    ensures StepOK(R, p, voters, n', out)
  {
    match m
    case RequestVote(_, _, _) =>
      if n.role.Leader? {
        LeaderKeepsOK(R, p, voters, n, n');
      }
    case RequestVoteResponse(_, _) =>
      if n.role.Leader? {
        LeaderKeepsOK(R, p, voters, n, n');
      }
    case AppendEntries(_, _, _, _, _) =>
      if n.role.Follower? {
        if Consistent(n.log, n.base, m.prev) {
          AcceptKeepsOK(R, p, n, m);
        } else {
          CatchUpKeepsOK(R, p, n, m);
        }
      }
    case AppendEntriesResponse(_, _, _) =>
      if n.role.Leader? {
        LeaderKeepsOK(R, p, voters, n, n');
      }
  }

  lemma ReceivesOK(R: Reigns, p: PeerId, voters: set<PeerId>, n: Node, src: PeerId, m: Message, env: Env, n': Node, out: set<Packet>)
    requires ReignsOK(R) && NodeOK(R, p, n) && MessageOK(R, m)
    requires FollowsUp(n, m) && m.entries != [] && m.prev.index == 0 ==> n.base == 0
    requires Receives(p, n, src, m, env, n', out)
    ensures StepOK(R, p, voters, n', out)
  {
    if m.term < n.term {
      if n.role.Leader? {
        LeaderKeepsOK(R, p, voters, n, n');
      }
    } else {
      HandlesOK(R, p, voters, StepDown(n, m), src, m, env, n', out);
    }
  }

  /** A batch just appended by the leader is a slice of its term's log. */
  lemma FlushedMessageOK(R: Reigns, t: Term, log: Log, commands: seq<Command>, leader: PeerId, commit: Index)
    requires t in R && R[t].log == log + WithTerm(t, commands)
    ensures MessageOK(R, AppendEntries(t, leader, Last(log), WithTerm(t, commands), commit))
  {
    var batch := WithTerm(t, commands);
    assert R[t].log[|log|..|log| + |batch|] == batch;
  }

  lemma FlushOK(R: Reigns, p: PeerId, voters: set<PeerId>, n: Node, sent: bool, env: Env, n': Node, out: set<Packet>)
    requires ReignsOK(R) && NodeOK(R, p, n) && n.role.Leader? && Flushes(p, n, sent, env, n', out)
    ensures StepOK(R, p, voters, n', out)
  {
    if sent {
      var R' := Recorded(R, p, voters, n');
      ExtendKeepsOK(R, n.term, Reign(p, voters, n'.log, n'.committed), WithTerm(n.term, n.role.queue));
      assert ReignOK(R', n.term);
      FlushedMessageOK(R', n.term, n.log, n.role.queue, p, n.committed);
    } else {
      LeaderKeepsOK(R, p, voters, n, n');
    }
  }

  lemma WinOK(R: Reigns, p: PeerId, voters: set<PeerId>, n: Node, n': Node)
    requires ReignsOK(R) && NodeOK(R, p, n) && n.term !in R && n'.role.Leader? && n' == n.(role := n'.role)
    ensures StepOK(R, p, voters, n', {})
  {
    CrownKeepsOK(R, n.term, Reign(p, voters, n.log, n'.committed));
    LogStaysOK(R, Recorded(R, p, voters, n'), n.log);
  }

  lemma PruneOK(R: Reigns, p: PeerId, voters: set<PeerId>, n: Node, n': Node)
    requires ReignsOK(R) && NodeOK(R, p, n) && n' == n.(base := n'.base) && n'.base <= n.committed && n'.base <= |n.log|
    ensures StepOK(R, p, voters, n', {})
  {
    if n.role.Leader? {
      var r := Reign(p, voters, n.log, n.committed);
      ExtendKeepsOK(R, n.term, r, []);
      LogStaysOK(R, R[n.term := r], n.log);
    }
  }

  /** The tail of the buffer that follows the snapshot is the matching slice of the leader's log. */
  lemma {:induction false} TailOK(R: Reigns, t: Term, buffered: seq<Buffered<Command>>, after: Index)
    requires forall i :: 0 <= i < |buffered| ==> BufferedOK(R, t, buffered[i])
    ensures forall i :: 0 <= i < |Tail(buffered, after)| ==> BufferedOK(R, t, Tail(buffered, after)[i])
  {
    if buffered != [] {
      assert BufferedOK(R, t, buffered[0]);
      TailOK(R, t, buffered[1..], after);
    }
  }

  lemma InstalledLog(R: Reigns, n: Node, prefix: Log, n': Node)
    requires Installs(n, prefix, n') && n.term in R && prefix <= R[n.term].log
    requires forall i :: 0 <= i < |n.role.catchup.value| ==> BufferedOK(R, n.term, n.role.catchup.value[i])
    ensures n'.log <= R[n.term].log
  {
    var whole := R[n.term].log;
    var tail := Tail(n.role.catchup.value, |prefix|);
    TailOK(R, n.term, n.role.catchup.value, |prefix|);
    assert |n'.log| <= |whole| by {
      if tail != [] {
        assert BufferedOK(R, n.term, tail[|tail| - 1]);
      }
    }
    forall i | 0 <= i < |n'.log|
      ensures n'.log[i] == whole[i]
    {
      if |prefix| <= i {
        assert BufferedOK(R, n.term, tail[i - |prefix|]);
      }
    }
  }

  lemma InstallOK(R: Reigns, p: PeerId, voters: set<PeerId>, n: Node, prefix: Log, n': Node)
    requires ReignsOK(R) && NodeOK(R, p, n) && Installs(n, prefix, n')
    requires n.term in R && prefix <= R[n.term].log
    ensures StepOK(R, p, voters, n', {})
  {
    InstalledLog(R, n, prefix, n');
    assert ReignOK(R, n.term);
    PrefixOK(R, R[n.term].log, n'.log);
  }

  lemma NodeLogs(R: Reigns, p: PeerId, voters: set<PeerId>, n: Node, e: Event, n': Node, out: set<Packet>)
    requires ReignsOK(R) && NodeOK(R, p, n) && e.node == p && NodeStep(p, n, e, n', out)
    requires e.Receive? ==> MessageOK(R, e.msg)
    requires e.Win? ==> n.term !in R
    requires e.Receive? && FollowsUp(n, e.msg) && e.msg.entries != [] && e.msg.prev.index == 0 ==> n.base == 0
    requires e.Install? ==> n.term in R && e.prefix <= R[n.term].log
    ensures StepOK(R, p, voters, n', out)
  {
    match e
    case Receive(_, src, m, env) => ReceivesOK(R, p, voters, n, src, m, env, n', out);
    case Timeout(_, _) =>
    case Win(_) => WinOK(R, p, voters, n, n');
    case Enqueue(_, _) => LeaderKeepsOK(R, p, voters, n, n');
    case Flush(_, sent, env) => FlushOK(R, p, voters, n, sent, env, n', out);
    case Heartbeat(_, _) => LeaderKeepsOK(R, p, voters, n, n');
    case Prune(_, _) => PruneOK(R, p, voters, n, n');
    case Offer(_, _) => PruneOK(R, p, voters, n, n');
    case Install(_, prefix) => InstallOK(R, p, voters, n, prefix, n');
  }

  // ---------------------------------------------------------------- the system

  ghost predicate LogInv(s: System) {
    && ReignsOK(s.reigns)
    && (forall p :: p in s.nodes ==> NodeOK(s.reigns, p, s.nodes[p]))
    && MessagesOK(s.reigns, s.net)
  }

  ghost predicate LogHypotheses(s: System, e: Event)
    requires e.node in s.nodes
  {
    OneLeader(s, e) && AbovePruning(s, e) && SnapshotAgrees(s, e)
  }

  lemma InitLogs(s: System)
    requires Init(s)
    ensures LogInv(s)
  {
  }

  lemma MessageStaysOK(R: Reigns, R': Reigns, m: Message)
    requires Grows(R, R') && MessageOK(R, m)
    ensures MessageOK(R', m)
  {
  }

  lemma BufferedStaysOK(R: Reigns, R': Reigns, t: Term, x: Buffered<Command>)
    requires Grows(R, R') && BufferedOK(R, t, x)
    ensures BufferedOK(R', t, x)
  {
  }

  /** The other nodes are untouched: the only leader's log that changes is that of the stepping node. */
  lemma OthersStayOK(s: System, e: Event, out: set<Packet>, s': System, q: PeerId)
    requires LogInv(s) && E.ElectionInv(s) && Next(s, e, out, s') && OneLeader(s, e)
    requires Grows(s.reigns, s'.reigns) && q in s.nodes && q != e.node
    ensures NodeOK(s'.reigns, q, s.nodes[q])
  {
    var n := s.nodes[q];
    assert NodeOK(s.reigns, q, n);
    LogStaysOK(s.reigns, s'.reigns, n.log);
    if n.role.Leader? {
      E.StepVotes(s, e, out, s');
      assert E.NodeInv(s, e.node);
    } else if n.role.Follower? && n.role.catchup.Some? {
      forall i | 0 <= i < |n.role.catchup.value|
        ensures BufferedOK(s'.reigns, n.term, n.role.catchup.value[i])
      {
        BufferedStaysOK(s.reigns, s'.reigns, n.term, n.role.catchup.value[i]);
      }
    }
  }

  lemma StepLogs(s: System, e: Event, out: set<Packet>, s': System)
    requires LogInv(s) && E.ElectionInv(s) && Next(s, e, out, s') && LogHypotheses(s, e)
    ensures LogInv(s') && Grows(s.reigns, s'.reigns)
  {
    var p, n, n' := e.node, s.nodes[e.node], s'.nodes[e.node];
    assert NodeOK(s.reigns, p, n);
    NodeLogs(s.reigns, p, Electors(s, p, n'.term), n, e, n', out);
    assert s'.reigns == Recorded(s.reigns, p, Electors(s, p, n'.term), n');
    forall q | q in s'.nodes
      ensures NodeOK(s'.reigns, q, s'.nodes[q])
    {
      if q != p {
        OthersStayOK(s, e, out, s', q);
      }
    }
    forall k | k in s'.net
      ensures MessageOK(s'.reigns, k.msg)
    {
      if k in s.net {
        MessageStaysOK(s.reigns, s'.reigns, k.msg);
      }
    }
  }

  ghost predicate HypothesesUpTo(start: System, steps: seq<Taken>, n: nat)
    requires n <= |steps|
  {
    forall i :: 0 <= i < n ==> HypothesesAt(start, steps, i)
  }

  ghost predicate HypothesesAt(start: System, steps: seq<Taken>, i: nat)
    requires i < |steps|
  {
    steps[i].event.node in StateAt(start, steps, i).nodes && LogHypotheses(StateAt(start, steps, i), steps[i].event)
  }

  lemma {:induction false} LogsUpTo(start: System, steps: seq<Taken>, n: nat)
    requires Run(start, steps) && n <= |steps| && HypothesesUpTo(start, steps, n)
    ensures E.ElectionInv(StateAt(start, steps, n)) && LogInv(StateAt(start, steps, n))
  {
    if n == 0 {
      E.InitElections(start);
      InitLogs(start);
    } else {
      LogsUpTo(start, steps, n - 1);
      assert TakenAt(start, steps, n - 1) && HypothesesAt(start, steps, n - 1);
      var s, taken := StateAt(start, steps, n - 1), steps[n - 1];
      E.StepElections(s, taken.event, taken.out, taken.state);
      StepLogs(s, taken.event, taken.out, taken.state);
    }
  }

  /**
   * Log Matching: in every run with at most one leader per term, whatever the elections, appends,
   * truncations, redeliveries, prunings and snapshots, two nodes whose logs hold an entry of the same
   * index and term hold the same log up to that index.
   */
  lemma LogMatchingTheorem(start: System, steps: seq<Taken>, n: nat, p: PeerId, q: PeerId, i: nat)
    requires Run(start, steps) && n <= |steps| && HypothesesUpTo(start, steps, n)
    requires p in StateAt(start, steps, n).nodes && q in StateAt(start, steps, n).nodes
    ensures var a, b := StateAt(start, steps, n).nodes[p].log, StateAt(start, steps, n).nodes[q].log;
            i < |a| && i < |b| && a[i].term == b[i].term ==> a[..i + 1] == b[..i + 1]
  {
    LogsUpTo(start, steps, n);
    var s := StateAt(start, steps, n);
    assert NodeOK(s.reigns, p, s.nodes[p]) && NodeOK(s.reigns, q, s.nodes[q]);
    if i < |s.nodes[p].log| && i < |s.nodes[q].log| && s.nodes[p].log[i].term == s.nodes[q].log[i].term {
      Matched(s.reigns, s.nodes[p].log, s.nodes[q].log, i);
    }
  }

  ghost predicate ReplicationHypothesesAt(start: System, steps: seq<Taken>, i: nat)
    requires i < |steps|
  {
    && steps[i].event.node in StateAt(start, steps, i).nodes
    && AbovePruning(StateAt(start, steps, i), steps[i].event) && SnapshotAgrees(StateAt(start, steps, i), steps[i].event)
  }

  /** Where winners polled the whole group and only observers abstained, Log Matching needs no assumption about leaders. */
  lemma LogMatchingUnderFullPolling(start: System, steps: seq<Taken>, n: nat, p: PeerId, q: PeerId, i: nat)
    requires Run(start, steps) && n <= |steps|
    requires forall j :: 0 <= j < n ==> E.PolledWinAt(start, steps, j)
    requires forall j :: 0 <= j < n ==> ReplicationHypothesesAt(start, steps, j)
    requires p in StateAt(start, steps, n).nodes && q in StateAt(start, steps, n).nodes
    ensures var a, b := StateAt(start, steps, n).nodes[p].log, StateAt(start, steps, n).nodes[q].log;
            i < |a| && i < |b| && a[i].term == b[i].term ==> a[..i + 1] == b[..i + 1]
  {
    forall j | 0 <= j < n
      ensures HypothesesAt(start, steps, j)
    {
      E.OneLeaderPerTerm(start, steps, j);
      assert ReplicationHypothesesAt(start, steps, j);
    }
    LogMatchingTheorem(start, steps, n, p, q, i);
  }
}
