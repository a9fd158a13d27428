/**
 * What a grant says about logs. A vote is granted on equal cursors only, and nothing can change a log in a term that
 * has no leader yet, so until the election is decided a voter that stays in the term holds its candidate's log.
 */
module VoterLogs {
  import opened RaftTypes
  import opened FullLog
  import opened AppendPlacement
  import opened RaftProtocol
  import opened LogMatching
  import E = ElectionSafety

  predicate Agrees(log: Log, lead: Log, k: Index) {
    k <= |log| && k <= |lead| && log[..k] == lead[..k]
  }

  /** Before term `t` has a leader, a voter still in `t` and the candidate it voted for have the same log. */
  ghost predicate Twin(s: System, v: PeerId, c: PeerId, t: Term) {
    && v in s.nodes && c in s.nodes && t <= s.nodes[v].term && t <= s.nodes[c].term
    && (t !in s.reigns && s.nodes[v].term == t && s.nodes[c].term == t && s.nodes[c].role.Candidate?
        ==> s.nodes[v].log == s.nodes[c].log)
  }

  ghost predicate CandidateTwins(s: System, p: PeerId)
    requires p in s.nodes
  {
    var n := s.nodes[p];
    n.role.Candidate? ==> p in n.role.ballot.granted && forall v :: v in n.role.ballot.granted ==> Twin(s, v, p, n.term)
  }

  ghost predicate PacketTwins(s: System, k: Packet) {
    match k.msg
    case RequestVoteResponse(term, vote) => vote.Granted? ==> Twin(s, k.src, k.dst, term)
    case RequestVote(term, candidate, position) =>
      && candidate == k.src && candidate in s.nodes && term <= s.nodes[candidate].term
      && (s.nodes[candidate].term == term && s.nodes[candidate].role.Candidate? ==> position == Last(s.nodes[candidate].log))
    case AppendEntries(_, _, _, _, _) => true
    case AppendEntriesResponse(_, _, _) => true
  }

  ghost predicate TwinInv(s: System) {
    && (forall p :: p in s.nodes ==> CandidateTwins(s, p))
    && (forall k :: k in s.net ==> PacketTwins(s, k))
  }

  lemma InitTwins(s: System)
    requires Init(s)
    ensures TwinInv(s)
  {
  }

  /** Equal cursors mean equal logs. */
  lemma SameCursorSameLog(R: Reigns, a: Log, b: Log)
    requires LogOK(R, a) && LogOK(R, b) && Last(a) == Last(b)
    ensures a == b
  {
    if a != [] {
      Matched(R, a, b, |a| - 1);
      assert a[..|a|] == a && b[..|b|] == b;
    }
  }

  // ---------------------------------------------------------------- one node

  /** A log is frozen while its term has no leader, and as long as the node stays a candidate of its term. */
  ghost predicate Frozen(R: Reigns, n: Node, n': Node) {
    n'.term == n.term ==>
      && (n.term !in R ==> n'.log == n.log)
      && (n.role.Candidate? && n'.role.Candidate? ==> n'.log == n.log)
  }

  /** Which vote traffic a step may send, as far as logs are concerned. */
  ghost predicate TwinPacket(self: PeerId, e: Event, n': Node, k: Packet) {
    && k.src == self
    && match k.msg
       case RequestVoteResponse(term, vote) =>
         vote.Granted? ==>
           && e.Receive? && e.msg.RequestVote? && e.msg.term == term && e.src == k.dst
           && term == n'.term && e.msg.logPosition == Last(n'.log)
       case RequestVote(term, candidate, position) =>
         candidate == self && term == n'.term && position == Last(n'.log)
       case AppendEntries(_, _, _, _, _) => true
       case AppendEntriesResponse(_, _, _) => true
  }

  ghost predicate TwinPackets(self: PeerId, e: Event, n': Node, out: set<Packet>) {
    forall k :: k in out ==> TwinPacket(self, e, n', k)
  }

  lemma HandlesFrozen(R: Reigns, p: PeerId, n: Node, src: PeerId, m: Message, env: Env, n': Node, out: set<Packet>)
    requires NodeOK(R, p, n) && MessageOK(R, m) && n.term == m.term && (n.role.Candidate? ==> !m.AppendEntries?)
    requires E.OwnVote(p, n) && Handles(p, n, src, m, env, n', out)
    ensures Frozen(R, n, n') && TwinPackets(p, Receive(p, src, m, env), n', out)
  {
  }

  lemma ReceivesFrozen(R: Reigns, p: PeerId, n: Node, src: PeerId, m: Message, env: Env, n': Node, out: set<Packet>)
    requires NodeOK(R, p, n) && E.OwnVote(p, n) && MessageOK(R, m) && Receives(p, n, src, m, env, n', out)
    ensures Frozen(R, n, n') && TwinPackets(p, Receive(p, src, m, env), n', out)
  {
    if n.term <= m.term {
      HandlesFrozen(R, p, StepDown(n, m), src, m, env, n', out);
    }
  }

  lemma NodeFrozen(R: Reigns, p: PeerId, n: Node, e: Event, n': Node, out: set<Packet>)
    requires NodeOK(R, p, n) && E.OwnVote(p, n) && e.node == p && NodeStep(p, n, e, n', out)
    requires (e.Receive? ==> MessageOK(R, e.msg)) && (e.Install? ==> n.term in R)
    ensures Frozen(R, n, n') && TwinPackets(p, e, n', out)
  {
    match e
    case Receive(_, src, m, env) => ReceivesFrozen(R, p, n, src, m, env, n', out);
    case Timeout(_, _) =>
    case Win(_) =>
    case Enqueue(_, _) =>
    case Flush(_, _, _) =>
    case Heartbeat(_, _) =>
    case Prune(_, _) =>
    case Offer(_, _) =>
    case Install(_, _) =>
  }

  // ---------------------------------------------------------------- the system

  /** The facts about one step that the system-wide argument uses. */
  ghost predicate TwinStep(s: System, e: Event, out: set<Packet>, s': System) {
    && E.VoteStep(s, e, out, s') && OneLeader(s, e)
    && (e.Receive? ==> e.src != e.node && Packet(e.src, e.node, e.msg) in s.net)
    && Frozen(s.reigns, s.nodes[e.node], s'.nodes[e.node])
    && TwinPackets(e.node, e, s'.nodes[e.node], out)
  }

  lemma StepTwinFacts(s: System, e: Event, out: set<Packet>, s': System)
    requires E.ElectionInv(s) && LogInv(s) && Next(s, e, out, s') && LogHypotheses(s, e)
    ensures TwinStep(s, e, out, s')
  {
    E.StepVotes(s, e, out, s');
    assert E.NodeInv(s, e.node) && NodeOK(s.reigns, e.node, s.nodes[e.node]);
    NodeFrozen(s.reigns, e.node, s.nodes[e.node], e, s'.nodes[e.node], out);
  }

  lemma TwinStays(s: System, e: Event, out: set<Packet>, s': System, v: PeerId, c: PeerId, t: Term)
    requires TwinStep(s, e, out, s') && Twin(s, v, c, t)
    ensures Twin(s', v, c, t)
  {
  }

  lemma CandidateStep(s: System, e: Event, out: set<Packet>, s': System)
    requires TwinInv(s) && TwinStep(s, e, out, s')
    ensures CandidateTwins(s', e.node)
  {
    var p, n, n' := e.node, s.nodes[e.node], s'.nodes[e.node];
    assert CandidateTwins(s, p);
    if n'.role.Candidate? {
      forall v | v in n'.role.ballot.granted
        ensures Twin(s', v, p, n'.term)
      {
        if v != p {
          if v !in n.role.ballot.granted {
            assert PacketTwins(s, Packet(e.src, p, e.msg));
          }
          TwinStays(s, e, out, s', v, p, n.term);
        }
      }
    }
  }

  lemma OtherTwins(s: System, e: Event, out: set<Packet>, s': System, q: PeerId)
    requires TwinInv(s) && TwinStep(s, e, out, s') && q in s.nodes && q != e.node
    ensures CandidateTwins(s', q)
  {
    assert CandidateTwins(s, q);
    if s.nodes[q].role.Candidate? {
      forall v | v in s.nodes[q].role.ballot.granted
        ensures Twin(s', v, q, s.nodes[q].term)
      {
        TwinStays(s, e, out, s', v, q, s.nodes[q].term);
      }
    }
  }

  lemma OldPacketTwins(s: System, e: Event, out: set<Packet>, s': System, k: Packet)
    requires TwinInv(s) && TwinStep(s, e, out, s') && k in s.net
    ensures PacketTwins(s', k)
  {
    assert PacketTwins(s, k);
    if k.msg.RequestVoteResponse? && k.msg.vote.Granted? {
      TwinStays(s, e, out, s', k.src, k.dst, k.msg.term);
    }
  }

  /** A grant is given on equal cursors, so the voter's log is the candidate's. */
  lemma NewPacketTwins(s: System, e: Event, out: set<Packet>, s': System, k: Packet)
    requires TwinInv(s) && TwinStep(s, e, out, s') && LogInv(s') && k in out
    ensures PacketTwins(s', k)
  {
    var p, n' := e.node, s'.nodes[e.node];
    assert TwinPacket(p, e, n', k);
    if k.msg.RequestVoteResponse? && k.msg.vote.Granted? {
      assert PacketTwins(s, Packet(e.src, p, e.msg));
      assert NodeOK(s'.reigns, p, n') && NodeOK(s'.reigns, k.dst, s'.nodes[k.dst]);
      if Last(s'.nodes[k.dst].log) == Last(n'.log) {
        SameCursorSameLog(s'.reigns, n'.log, s'.nodes[k.dst].log);
      }
    }
  }

  lemma StepTwins(s: System, e: Event, out: set<Packet>, s': System)
    requires TwinInv(s) && TwinStep(s, e, out, s') && LogInv(s')
    ensures TwinInv(s')
  {
    forall q | q in s'.nodes
      ensures CandidateTwins(s', q)
    {
      if q == e.node {
        CandidateStep(s, e, out, s');
      } else {
        OtherTwins(s, e, out, s', q);
      }
    }
    forall k | k in s'.net
      ensures PacketTwins(s', k)
    {
      if k in s.net {
        OldPacketTwins(s, e, out, s', k);
      } else {
        NewPacketTwins(s, e, out, s', k);
      }
    }
  }

  // ---------------------------------------------------------------- whole runs

  lemma {:induction false} TwinsUpTo(start: System, steps: seq<Taken>, n: nat)
    requires Run(start, steps) && n <= |steps| && HypothesesUpTo(start, steps, n)
    ensures var s := StateAt(start, steps, n); E.ElectionInv(s) && LogInv(s) && TwinInv(s)
  {
    LogsUpTo(start, steps, n);
    if n == 0 {
      InitTwins(start);
    } else {
      TwinsUpTo(start, steps, n - 1);
      assert TakenAt(start, steps, n - 1) && HypothesesAt(start, steps, n - 1);
      var s, taken := StateAt(start, steps, n - 1), steps[n - 1];
      StepTwinFacts(s, taken.event, taken.out, taken.state);
      StepTwins(s, taken.event, taken.out, taken.state);
    }
  }

  /**
   * Truthful initial credit: when a candidate wins, every voter it credits with its own last index and
   * that is still in the candidate's term holds exactly the candidate's log.
   */
  lemma VotersHoldTheWinnersLog(start: System, steps: seq<Taken>, i: nat, v: PeerId)
    requires Run(start, steps) && i < |steps| && HypothesesUpTo(start, steps, i + 1)
    requires steps[i].event.Win?
    ensures var s, e, s' := StateAt(start, steps, i), steps[i].event, steps[i].state;
            && e.node in s.nodes && e.node in s'.nodes && s'.nodes[e.node].role.Leader?
            && (v in s'.nodes[e.node].role.roster.voters ==>
                  && v in s.nodes && s'.nodes[e.node].role.roster.voters[v] == |s.nodes[e.node].log|
                  && (s.nodes[v].term == s.nodes[e.node].term ==> s.nodes[v].log == s.nodes[e.node].log))
  {
    TwinsUpTo(start, steps, i);
    assert TakenAt(start, steps, i) && HypothesesAt(start, steps, i);
    var s, e := StateAt(start, steps, i), steps[i].event;
    assert CandidateTwins(s, e.node);
    if v in s.nodes[e.node].role.ballot.granted {
      assert Twin(s, v, e.node, s.nodes[e.node].term);
    }
  }

  /** Any node holds the winner's log exactly when it holds an entry of the winner's last term at the winner's last index. */
  lemma HoldsTheWinnersLog(start: System, steps: seq<Taken>, i: nat, v: PeerId)
    requires Run(start, steps) && i < |steps| && HypothesesUpTo(start, steps, i)
    requires steps[i].event.Win? && v in StateAt(start, steps, i).nodes
    ensures steps[i].event.node in StateAt(start, steps, i).nodes
    ensures var s, e := StateAt(start, steps, i), steps[i].event;
            var log, won := s.nodes[v].log, s.nodes[e.node].log;
            Agrees(log, won, |won|) <==> TermAt(log, 0, |won|) == Some(Last(won).term)
  {
    LogsUpTo(start, steps, i);
    assert TakenAt(start, steps, i);
    var s, p := StateAt(start, steps, i), steps[i].event.node;
    assert NodeOK(s.reigns, v, s.nodes[v]) && NodeOK(s.reigns, p, s.nodes[p]);
    AgreesByLastTerm(s.reigns, s.nodes[v].log, s.nodes[p].log);
  }

  lemma AgreesByLastTerm(R: Reigns, log: Log, won: Log)
    requires LogOK(R, log) && LogOK(R, won)
    ensures Agrees(log, won, |won|) <==> TermAt(log, 0, |won|) == Some(Last(won).term)
  {
    if 0 < |won| <= |log| && log[|won| - 1].term == won[|won| - 1].term {
      Matched(R, log, won, |won| - 1);
    }
    if Agrees(log, won, |won|) && won != [] {
      assert log[..|won|][|won| - 1] == won[..|won|][|won| - 1];
    }
  }
}
