/**
 * What a ballot and an answer to a vote request mean, in every run: whose answers a candidate has counted and how, whom
 * it polled, and why a peer answered as it did.
 */
module BallotTruth {
  import opened RaftTypes
  import opened FullLog
  import opened RaftProtocol
  import opened Sorting

  // ---------------------------------------------------------------- one node

  /** A new campaign: an empty ballot but for the own vote, and a request to each bond. */
  ghost predicate Campaigned(self: PeerId, n: Node, n': Node, out: set<Packet>, bonds: set<PeerId>) {
    && n'.role.Candidate? && n.term < n'.term
    && n'.role.ballot.requested == bonds + {self} && n'.role.ballot.granted == {self}
    && n'.role.ballot.abstained == {} && n'.role.ballot.denied == {}
    && forall k :: k in out <==> exists v :: v in bonds && k == Packet(self, v, RequestVote(n'.term, self, Last(n'.log)))
  }

  /** The answer that the event brings a candidate, if any. */
  predicate Brings(n: Node, e: Event, v: PeerId, vote: Vote) {
    e.Receive? && n.role.Candidate? && e.src == v && e.msg == RequestVoteResponse(n.term, vote) && v in n.role.ballot.requested
  }

  /** The ballot of a candidate that stays one, with exactly the answer just received counted. */
  ghost predicate Counted(n: Node, e: Event, n': Node) {
    && n.role.Candidate? && n'.role.Candidate? && n'.term == n.term && n'.log == n.log
    && var b, b' := n.role.ballot, n'.role.ballot;
    && b'.requested == b.requested
    && (forall v :: v in b'.granted <==> v in b.granted || Brings(n, e, v, Granted))
    && (forall v :: v in b'.abstained <==> v in b.abstained || Brings(n, e, v, Abstained))
    && (forall v :: v in b'.denied <==> v in b.denied || Brings(n, e, v, Denied))
  }

  ghost predicate BallotChange(self: PeerId, n: Node, e: Event, n': Node, out: set<Packet>) {
    && n.term <= n'.term
    && (n'.role.Candidate? ==> Counted(n, e, n') || exists bonds :: Campaigned(self, n, n', out, bonds))
    && (forall k :: k in out && k.msg.RequestVote? ==> exists bonds :: Campaigned(self, n, n', out, bonds))
  }

  lemma Campaigning(self: PeerId, n: Node, e: Event, bonds: set<PeerId>)
    ensures var n' := Campaign(self, n, n.term + 1, bonds);
            BallotChange(self, n, e, n', CampaignPackets(self, n, n.term + 1, bonds))
  {
    var n' := Campaign(self, n, n.term + 1, bonds);
    assert Campaigned(self, n, n', CampaignPackets(self, n, n.term + 1, bonds), bonds);
  }

  lemma HandlesBallot(self: PeerId, n: Node, src: PeerId, m: Message, env: Env, n': Node, out: set<Packet>)
    requires n.term == m.term && Handles(self, n, src, m, env, n', out) && (n.role.Candidate? ==> !m.AppendEntries?)
    ensures BallotChange(self, n, Receive(self, src, m, env), n', out)
  {
    if m.AppendEntries? && n.role.Leader? {
      Campaigning(self, n, Receive(self, src, m, env), env.bonds);
    }
  }

  lemma NodeBallot(self: PeerId, n: Node, e: Event, n': Node, out: set<Packet>)
    requires NodeStep(self, n, e, n', out) && e.node == self
    ensures BallotChange(self, n, e, n', out)
  {
    match e
    case Receive(_, src, m, env) =>
      if n.term <= m.term {
        HandlesBallot(self, StepDown(n, m), src, m, env, n', out);
      }
    case Timeout(_, bonds) => Campaigning(self, n, e, bonds);
    case Win(_) =>
    case Enqueue(_, _) =>
    case Flush(_, _, _) =>
    case Heartbeat(_, _) =>
    case Prune(_, _) =>
    case Offer(_, _) =>
    case Install(_, _) =>
  }

  // ---------------------------------------------------------------- every run

  predicate Answered(s: System, v: PeerId, p: PeerId, t: Term, vote: Vote) {
    Packet(v, p, RequestVoteResponse(t, vote)) in s.net
  }

  /** Candidate `p` asked peer `v` for its vote in this term, and told it where its log ends. */
  predicate Polled(s: System, p: PeerId, v: PeerId)
    requires p in s.nodes
  {
    Packet(p, v, RequestVote(s.nodes[p].term, p, Last(s.nodes[p].log))) in s.net
  }

  ghost predicate BallotInv(s: System, p: PeerId)
    requires p in s.nodes
  {
    var n := s.nodes[p];
    n.role.Candidate? ==>
      var b := n.role.ballot;
      && p in b.requested && p in b.granted && p !in b.abstained && p !in b.denied
      && (forall v :: v in b.granted && v != p ==> Answered(s, v, p, n.term, Granted) && v in b.requested)
      && (forall v :: v in b.abstained ==> Answered(s, v, p, n.term, Abstained) && v in b.requested)
      && (forall v :: v in b.denied ==> Answered(s, v, p, n.term, Denied) && v in b.requested)
      && (forall v :: v in b.requested && v != p ==> Polled(s, p, v))
  }

  ghost predicate PollInv(s: System, k: Packet) {
    k.msg.RequestVote? ==>
      && k.src in s.nodes && k.msg.candidate == k.src && k.msg.term <= s.nodes[k.src].term
      && (k.msg.term == s.nodes[k.src].term && s.nodes[k.src].role.Candidate? ==>
            k.dst in s.nodes[k.src].role.ballot.requested && k.msg.logPosition == Last(s.nodes[k.src].log))
  }

  ghost predicate BallotsInv(s: System) {
    && (forall p :: p in s.nodes ==> BallotInv(s, p))
    && (forall k :: k in s.net ==> PollInv(s, k))
  }

  /** The facts about one step that the argument uses. */
  ghost predicate BallotStep(s: System, e: Event, out: set<Packet>, s': System) {
    && e.node in s.nodes && e.node in s'.nodes && s'.nodes == s.nodes[e.node := s'.nodes[e.node]] && s'.net == s.net + out
    && (e.Receive? ==> e.src != e.node && Packet(e.src, e.node, e.msg) in s.net)
    && BallotChange(e.node, s.nodes[e.node], e, s'.nodes[e.node], out)
  }

  lemma StepFacts(s: System, e: Event, out: set<Packet>, s': System)
    requires Next(s, e, out, s')
    ensures BallotStep(s, e, out, s')
  {
    NodeBallot(e.node, s.nodes[e.node], e, s'.nodes[e.node], out);
  }

  lemma CountedStep(s: System, e: Event, out: set<Packet>, s': System, p: PeerId)
    requires BallotsInv(s) && BallotStep(s, e, out, s') && p in s.nodes && s'.nodes[p].role.Candidate?
    requires if p == e.node then Counted(s.nodes[p], e, s'.nodes[p]) else s'.nodes[p] == s.nodes[p]
    ensures BallotInv(s', p)
  {
    assert BallotInv(s, p);
    assert forall v :: Polled(s, p, v) ==> Polled(s', p, v);
  }

  lemma CampaignedStep(s: System, e: Event, out: set<Packet>, s': System, bonds: set<PeerId>)
    requires BallotStep(s, e, out, s') && Campaigned(e.node, s.nodes[e.node], s'.nodes[e.node], out, bonds)
    ensures BallotInv(s', e.node)
  {
    var p, n' := e.node, s'.nodes[e.node];
    forall v | v in bonds
      ensures Polled(s', p, v)
    {
      assert Packet(p, v, RequestVote(n'.term, p, Last(n'.log))) in s'.net;
    }
  }

  lemma PacketStep(s: System, e: Event, out: set<Packet>, s': System, k: Packet)
    requires BallotsInv(s) && BallotStep(s, e, out, s') && k in s'.net
    ensures PollInv(s', k)
  {
    if k.msg.RequestVote? {
      var n, n' := s.nodes[e.node], s'.nodes[e.node];
      if k in out {
        var bonds :| Campaigned(e.node, n, n', out, bonds);
        var v :| v in bonds && k == Packet(e.node, v, RequestVote(n'.term, e.node, Last(n'.log)));
      } else {
        assert PollInv(s, k);
      }
    }
  }

  lemma StepBallots(s: System, e: Event, out: set<Packet>, s': System)
    requires BallotsInv(s) && Next(s, e, out, s')
    ensures BallotsInv(s')
  {
    StepFacts(s, e, out, s');
    forall p | p in s'.nodes
      ensures BallotInv(s', p)
    {
      if s'.nodes[p].role.Candidate? {
        if p != e.node || Counted(s.nodes[p], e, s'.nodes[p]) {
          CountedStep(s, e, out, s', p);
        } else {
          var bonds :| Campaigned(p, s.nodes[p], s'.nodes[p], out, bonds);
          CampaignedStep(s, e, out, s', bonds);
        }
      }
    }
    forall k | k in s'.net
      ensures PollInv(s', k)
    {
      PacketStep(s, e, out, s', k);
    }
  }

  lemma {:induction false} BallotsUpTo(start: System, steps: seq<Taken>, n: nat)
    requires Run(start, steps) && n <= |steps|
    ensures BallotsInv(StateAt(start, steps, n))
  {
    if n > 0 {
      BallotsUpTo(start, steps, n - 1);
      assert TakenAt(start, steps, n - 1);
      StepBallots(StateAt(start, steps, n - 1), steps[n - 1].event, steps[n - 1].out, steps[n - 1].state);
    }
  }

  /**
   * In every run, whoever a candidate counts as granting, abstaining or denying sent it exactly that answer for exactly
   * that term, and its ballot is over itself and exactly the peers it asked, telling them where its log ends.
   */
  lemma BallotsAreTruthful(start: System, steps: seq<Taken>, n: nat, p: PeerId, v: PeerId)
    requires Run(start, steps) && n <= |steps| && p in StateAt(start, steps, n).nodes && v != p
    requires StateAt(start, steps, n).nodes[p].role.Candidate?
    ensures var s := StateAt(start, steps, n);
            var t, b := s.nodes[p].term, s.nodes[p].role.ballot;
            && (v in b.granted ==> Packet(v, p, RequestVoteResponse(t, Granted)) in s.net)
            && (v in b.abstained ==> Packet(v, p, RequestVoteResponse(t, Abstained)) in s.net)
            && (v in b.denied ==> Packet(v, p, RequestVoteResponse(t, Denied)) in s.net)
            && (v in b.requested <==> Packet(p, v, RequestVote(t, p, Last(s.nodes[p].log))) in s.net)
            && p in b.requested && p in b.granted && p !in b.abstained && p !in b.denied
  {
    BallotsUpTo(start, steps, n);
    var s := StateAt(start, steps, n);
    assert BallotInv(s, p);
    if Polled(s, p, v) {
      assert PollInv(s, Packet(p, v, RequestVote(s.nodes[p].term, p, Last(s.nodes[p].log))));
    }
  }

  // ---------------------------------------------------------------- no answer is lost

  predicate CountedAs(b: Ballot, v: PeerId, vote: Vote) {
    (vote.Granted? ==> v in b.granted) && (vote.Abstained? ==> v in b.abstained) && (vote.Denied? ==> v in b.denied)
  }

  /** Node `p` campaigns in term `t`. */
  predicate Campaigns(s: System, p: PeerId, t: Term) {
    p in s.nodes && s.nodes[p].role.Candidate? && s.nodes[p].term == t
  }

  /** A candidate that is one of the same term after a step was one before it, unless the campaign began with the step. */
  lemma StaysCounted(s: System, e: Event, out: set<Packet>, s': System, p: PeerId, t: Term, v: PeerId, vote: Vote)
    requires BallotStep(s, e, out, s') && Campaigns(s', p, t) && p in s.nodes && s.nodes[p].term == t
    ensures Campaigns(s, p, t)
    ensures CountedAs(s.nodes[p].role.ballot, v, vote) ==> CountedAs(s'.nodes[p].role.ballot, v, vote)
  {
    assert p == e.node ==> Counted(s.nodes[p], e, s'.nodes[p]);
  }

  lemma {:induction false} TermsRise(start: System, steps: seq<Taken>, i: nat, j: nat, p: PeerId)
    requires Run(start, steps) && i <= j <= |steps| && p in StateAt(start, steps, i).nodes
    ensures p in StateAt(start, steps, j).nodes && StateAt(start, steps, i).nodes[p].term <= StateAt(start, steps, j).nodes[p].term
  {
    if i < j {
      TermsRise(start, steps, i, j - 1, p);
      assert TakenAt(start, steps, j - 1);
      StepFacts(StateAt(start, steps, j - 1), steps[j - 1].event, steps[j - 1].out, steps[j - 1].state);
    }
  }

  lemma {:induction false} CountedForGood(start: System, steps: seq<Taken>, i: nat, j: nat, p: PeerId, t: Term, v: PeerId, vote: Vote)
    requires Run(start, steps) && i <= j <= |steps| && Campaigns(StateAt(start, steps, j), p, t)
    requires Campaigns(StateAt(start, steps, i), p, t) && CountedAs(StateAt(start, steps, i).nodes[p].role.ballot, v, vote)
    ensures CountedAs(StateAt(start, steps, j).nodes[p].role.ballot, v, vote)
  {
    if i < j {
      TermsRise(start, steps, i, j - 1, p);
      TermsRise(start, steps, j - 1, j, p);
      assert TakenAt(start, steps, j - 1);
      var s, taken := StateAt(start, steps, j - 1), steps[j - 1];
      StepFacts(s, taken.event, taken.out, taken.state);
      StaysCounted(s, taken.event, taken.out, taken.state, p, t, v, vote);
      CountedForGood(start, steps, i, j - 1, p, t, v, vote);
    }
  }

  /** An answer of a polled peer that reaches its candidate is counted as what it says, for as long as the campaign lasts. */
  lemma AnswersAreCounted(start: System, steps: seq<Taken>, i: nat, j: nat, p: PeerId, v: PeerId, t: Term, vote: Vote)
    requires Run(start, steps) && i < j <= |steps| && Campaigns(StateAt(start, steps, i), p, t) && Campaigns(StateAt(start, steps, j), p, t)
    requires var e := steps[i].event; e.Receive? && e.node == p && e.src == v && e.msg == RequestVoteResponse(t, vote)
    requires v in StateAt(start, steps, i).nodes[p].role.ballot.requested
    ensures var b := StateAt(start, steps, j).nodes[p].role.ballot;
            match vote
            case Granted => v in b.granted
            case Abstained => v in b.abstained
            case Denied => v in b.denied
  {
    var s, taken := StateAt(start, steps, i), steps[i];
    assert TakenAt(start, steps, i);
    StepFacts(s, taken.event, taken.out, taken.state);
    TermsRise(start, steps, i, i + 1, p);
    TermsRise(start, steps, i + 1, j, p);
    assert StateAt(start, steps, i + 1) == taken.state;
    AnswerKeepsCampaign(p, s.nodes[p], taken.event, taken.state.nodes[p], taken.out);
    assert Brings(s.nodes[p], taken.event, v, vote);
    CountedForGood(start, steps, i + 1, j, p, t, v, vote);
  }

  lemma AnswerKeepsCampaign(p: PeerId, n: Node, e: Event, n': Node, out: set<Packet>)
    requires NodeStep(p, n, e, n', out) && e.Receive? && e.node == p && n.role.Candidate?
    requires e.msg.RequestVoteResponse? && e.msg.term == n.term
    ensures Counted(n, e, n')
  {
  }

  /** A candidate has won exactly when it has more grants than half of those it polled that did not abstain. */
  lemma QuorumExactly(start: System, steps: seq<Taken>, n: nat, p: PeerId)
    requires Run(start, steps) && n <= |steps| && p in StateAt(start, steps, n).nodes
    requires StateAt(start, steps, n).nodes[p].role.Candidate?
    ensures var b := StateAt(start, steps, n).nodes[p].role.ballot;
            QuorumReached(b) <==> |b.requested| - |b.abstained| < 2 * |b.granted|
  {
    BallotsUpTo(start, steps, n);
    var s := StateAt(start, steps, n);
    assert BallotInv(s, p);
    SubsetSize(s.nodes[p].role.ballot.abstained, s.nodes[p].role.ballot.requested);
  }

  // ---------------------------------------------------------------- why a peer answered as it did

  predicate Less(a: Cursor, b: Cursor) {
    a.term < b.term || (a.term == b.term && a.index < b.index)
  }

  /** The node has voted in a later term, or for somebody else in this one. */
  predicate VotedElsewhere(n: Node, term: Term, candidate: PeerId) {
    n.lastVote.Some? && (term < n.lastVote.value.term || (term == n.lastVote.value.term && candidate != n.lastVote.value.candidate))
  }

  /** A node `n` that becomes `n'` answers a request of `src` with `vote` for exactly this reason. */
  ghost predicate Reason(n: Node, n': Node, src: PeerId, request: Message, vote: Vote)
    requires request.RequestVote?
  {
    var last, taken := Last(n.log), VotedElsewhere(n, request.term, request.candidate);
    && (vote.Granted? <==> !taken && last == request.logPosition && !n.observer)
    && (vote.Abstained? <==> !taken && (Less(last, request.logPosition) || (last == request.logPosition && n.observer)))
    && (vote.Denied? <==> taken || Less(request.logPosition, last))
    && n'.lastVote == (if !taken && last == request.logPosition then Some(Cast(request.term, src)) else n.lastVote)
    && n'.log == n.log && n'.term == request.term
  }

  lemma AnswersForReason(self: PeerId, n: Node, e: Event, n': Node, out: set<Packet>, k: Packet)
    requires NodeStep(self, n, e, n', out) && e.node == self && k in out && k.msg.RequestVoteResponse?
    ensures e.Receive? && e.msg.RequestVote? && e.msg.term == k.msg.term && k.src == self && k.dst == e.src
    ensures Reason(n, n', e.src, e.msg, k.msg.vote)
  {
  }

  /** At step `i` the sender of `k` received the request that `k` answers, and answered for this reason. */
  ghost predicate AnsweredAt(start: System, steps: seq<Taken>, i: nat, k: Packet)
    requires i < |steps| && k.msg.RequestVoteResponse?
  {
    var s, e, s' := StateAt(start, steps, i), steps[i].event, steps[i].state;
    && e.Receive? && e.msg.RequestVote? && e.node == k.src && e.src == k.dst && e.msg.term == k.msg.term
    && k.src in s.nodes && k.src in s'.nodes && Reason(s.nodes[k.src], s'.nodes[k.src], e.src, e.msg, k.msg.vote)
  }

  /** Every answer ever sent was given for its reason when the request arrived. */
  lemma {:induction false} AnswersHaveReasons(start: System, steps: seq<Taken>, n: nat, k: Packet)
    requires Run(start, steps) && n <= |steps| && k in StateAt(start, steps, n).net && k.msg.RequestVoteResponse?
    ensures exists i :: 0 <= i < n && AnsweredAt(start, steps, i, k)
  {
    if n > 0 {
      assert TakenAt(start, steps, n - 1);
      var s, taken := StateAt(start, steps, n - 1), steps[n - 1];
      if k in s.net {
        AnswersHaveReasons(start, steps, n - 1, k);
      } else {
        var p := taken.event.node;
        AnswersForReason(p, s.nodes[p], taken.event, taken.state.nodes[p], taken.out, k);
        assert AnsweredAt(start, steps, n - 1, k);
      }
    }
  }
}
