/**
 * How an initial credit can be lost. A grant completes an election only when it is counted, and by then the voter may
 * have moved on: the credit is false only if a leader of a later term or a snapshot has replaced the voter's log since.
 */
module CreditLoss {
  import opened RaftTypes
  import opened FullLog
  import opened AppendPlacement
  import opened RaftProtocol
  import opened LogMatching
  import opened VoterLogs
  import E = ElectionSafety

  function Grant(v: PeerId, p: PeerId, t: Term): Packet {
    Packet(v, p, RequestVoteResponse(t, Granted))
  }

  /** At step `j`, peer `v`, then in a term after `t`, follows a leader of a later term or installs a snapshot. */
  ghost predicate Replaced(start: System, steps: seq<Taken>, j: nat, v: PeerId, t: Term)
    requires j < |steps|
  {
    var s, e, s' := StateAt(start, steps, j), steps[j].event, steps[j].state;
    && e.node == v && v in s.nodes && v in s'.nodes && t < s'.nodes[v].term
    && (e.Install? || (e.Receive? && FollowsUp(s.nodes[v], e.msg) && t < e.msg.term))
  }

  /** Only a leader's message or a snapshot can take entries away from a log. */
  lemma OnlyLeadersReplace(p: PeerId, n: Node, e: Event, n': Node, out: set<Packet>)
    requires NodeStep(p, n, e, n', out)
    ensures n.log <= n'.log || e.Install? || (e.Receive? && FollowsUp(n, e.msg) && n'.term == e.msg.term)
  {
  }

  lemma ExtendedAgrees(log: Log, log': Log, won: Log)
    requires log <= log' && Agrees(log, won, |won|)
    ensures Agrees(log', won, |won|)
  {
    assert log'[..|won|] == log[..|won|];
  }

  /** The grants a candidate counts were sent to it. */
  lemma {:induction false} GrantsWereSent(start: System, steps: seq<Taken>, n: nat, p: PeerId, v: PeerId)
    requires Run(start, steps) && n <= |steps| && p in StateAt(start, steps, n).nodes
    requires var a := StateAt(start, steps, n).nodes[p]; a.role.Candidate? && v in a.role.ballot.granted && v != p
    ensures var s := StateAt(start, steps, n); Grant(v, p, s.nodes[p].term) in s.net
  {
    if n > 0 {
      E.VotingUpTo(start, steps, n - 1);
      assert TakenAt(start, steps, n - 1);
      var s, taken := StateAt(start, steps, n - 1), steps[n - 1];
      var e, s' := taken.event, taken.state;
      E.StepVotes(s, e, taken.out, s');
      if p != e.node || (s.nodes[p].role.Candidate? && s.nodes[p].term == s'.nodes[p].term && v in s.nodes[p].role.ballot.granted) {
        GrantsWereSent(start, steps, n - 1, p, v);
      }
    }
  }

  /** A grant that is still out when its candidate wins: the voter agrees with it, or its log was replaced since. */
  ghost predicate KeptOrReplaced(start: System, steps: seq<Taken>, n: nat, v: PeerId, p: PeerId, t: Term)
    requires n <= |steps| && v in StateAt(start, steps, n).nodes && p in StateAt(start, steps, n).nodes
  {
    var s := StateAt(start, steps, n);
    || Agrees(s.nodes[v].log, s.nodes[p].log, |s.nodes[p].log|)
    || (t < s.nodes[v].term && exists j :: 0 <= j < n && Replaced(start, steps, j, v, t))
  }

  /** A candidate before and after a step in the same term: the same log. */
  lemma CandidateStays(s: System, e: Event, out: set<Packet>, s': System, p: PeerId, t: Term)
    requires TwinStep(s, e, out, s') && p in s.nodes && t <= s.nodes[p].term
    requires p in s'.nodes && s'.nodes[p].role.Candidate? && s'.nodes[p].term == t
    ensures s.nodes[p].role.Candidate? && s.nodes[p].term == t && s'.nodes[p].log == s.nodes[p].log
  {
  }

  /** A voter that is past the term of a grant sent the grant earlier. */
  lemma GrantIsOlder(s: System, e: Event, out: set<Packet>, s': System, v: PeerId, p: PeerId, t: Term)
    requires TwinStep(s, e, out, s') && TwinInv(s) && Grant(v, p, t) in s'.net && v in s'.nodes && t < s'.nodes[v].term
    ensures Grant(v, p, t) in s.net && p in s.nodes && t <= s.nodes[p].term
  {
    var k := Grant(v, p, t);
    assert k in out ==> TwinPacket(e.node, e, s'.nodes[e.node], k);
    assert PacketTwins(s, k);
  }

  /** A grant is out for a candidate of term `t`, and the term has had no leader. */
  ghost predicate Pending(s: System, v: PeerId, p: PeerId, t: Term) {
    && Grant(v, p, t) in s.net && t !in s.reigns
    && p in s.nodes && s.nodes[p].role.Candidate? && s.nodes[p].term == t
  }

  lemma TwinOfGrant(start: System, steps: seq<Taken>, n: nat, v: PeerId, p: PeerId, t: Term)
    requires Run(start, steps) && n <= |steps| && HypothesesUpTo(start, steps, n) && Pending(StateAt(start, steps, n), v, p, t)
    ensures Twin(StateAt(start, steps, n), v, p, t)
  {
    TwinsUpTo(start, steps, n);
    assert PacketTwins(StateAt(start, steps, n), Grant(v, p, t));
  }

  lemma PendingBefore(start: System, steps: seq<Taken>, i: nat, v: PeerId, p: PeerId, t: Term)
    requires Run(start, steps) && i < |steps| && HypothesesUpTo(start, steps, i + 1)
    requires Pending(steps[i].state, v, p, t) && v in steps[i].state.nodes && t < steps[i].state.nodes[v].term
    ensures Pending(StateAt(start, steps, i), v, p, t)
    ensures steps[i].state.nodes[p].log == StateAt(start, steps, i).nodes[p].log
  {
    assert forall j :: 0 <= j < i ==> HypothesesAt(start, steps, j);
    TwinsUpTo(start, steps, i);
    assert TakenAt(start, steps, i) && HypothesesAt(start, steps, i);
    var s, e, out, s' := StateAt(start, steps, i), steps[i].event, steps[i].out, steps[i].state;
    StepTwinFacts(s, e, out, s');
    GrantIsOlder(s, e, out, s', v, p, t);
    CandidateStays(s, e, out, s', p, t);
  }

  lemma GrantStep(start: System, steps: seq<Taken>, i: nat, v: PeerId, p: PeerId, t: Term)
    requires Run(start, steps) && i < |steps| && steps[i].event.node in StateAt(start, steps, i).nodes
    requires v in StateAt(start, steps, i).nodes && p in StateAt(start, steps, i).nodes
    requires v in steps[i].state.nodes && p in steps[i].state.nodes && t < steps[i].state.nodes[v].term
    requires steps[i].state.nodes[p].log == StateAt(start, steps, i).nodes[p].log
    requires KeptOrReplaced(start, steps, i, v, p, t)
    ensures KeptOrReplaced(start, steps, i + 1, v, p, t)
  {
    assert TakenAt(start, steps, i);
    var s, e, s' := StateAt(start, steps, i), steps[i].event, steps[i].state;
    var won := s.nodes[p].log;
    assert StateAt(start, steps, i + 1) == s';
    if Agrees(s.nodes[v].log, won, |won|) && v == e.node {
      OnlyLeadersReplace(v, s.nodes[v], e, s'.nodes[v], steps[i].out);
      if s.nodes[v].log <= s'.nodes[v].log {
        ExtendedAgrees(s.nodes[v].log, s'.nodes[v].log, won);
      } else {
        assert Replaced(start, steps, i, v, t);
      }
    }
  }

  lemma {:induction false} GrantHistory(start: System, steps: seq<Taken>, n: nat, v: PeerId, p: PeerId, t: Term)
    requires Run(start, steps) && n <= |steps| && HypothesesUpTo(start, steps, n) && Pending(StateAt(start, steps, n), v, p, t)
    ensures v in StateAt(start, steps, n).nodes && KeptOrReplaced(start, steps, n, v, p, t)
  {
    TwinOfGrant(start, steps, n, v, p, t);
    if n > 0 && t < StateAt(start, steps, n).nodes[v].term {
      assert forall j :: 0 <= j < n ==> HypothesesAt(start, steps, j);
      PendingBefore(start, steps, n - 1, v, p, t);
      GrantHistory(start, steps, n - 1, v, p, t);
      assert TakenAt(start, steps, n - 1);
      GrantStep(start, steps, n - 1, v, p, t);
    }
  }

  /**
   * When a candidate wins, a voter it credits with its last index holds its log exactly when it holds an entry of the
   * candidate's last term there; and if not, the voter has left the term and, after granting its vote, had its log
   * replaced by a leader of a later term or by a snapshot.
   */
  lemma CreditExactCondition(start: System, steps: seq<Taken>, i: nat, v: PeerId)
    requires Run(start, steps) && i < |steps| && HypothesesUpTo(start, steps, i + 1)
    requires steps[i].event.Win?
    ensures var s, p := StateAt(start, steps, i), steps[i].event.node;
            && p in s.nodes && s.nodes[p].role.Candidate?
            && (v in s.nodes[p].role.ballot.granted ==>
                  && v in s.nodes
                  && var log, won, t := s.nodes[v].log, s.nodes[p].log, s.nodes[p].term;
                     && (Agrees(log, won, |won|) <==> TermAt(log, 0, |won|) == Some(Last(won).term))
                     && (!Agrees(log, won, |won|) ==>
                           t < s.nodes[v].term && exists j :: 0 <= j < i && Replaced(start, steps, j, v, t)))
  {
    assert TakenAt(start, steps, i) && HypothesesAt(start, steps, i);
    assert forall j :: 0 <= j < i ==> HypothesesAt(start, steps, j);
    var s, p := StateAt(start, steps, i), steps[i].event.node;
    if v in s.nodes[p].role.ballot.granted {
      if v != p {
        GrantsWereSent(start, steps, i, p, v);
        GrantHistory(start, steps, i, v, p, s.nodes[p].term);
      }
      HoldsTheWinnersLog(start, steps, i, v);
    }
  }
}
