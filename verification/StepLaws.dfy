/** What handling one message does to a node, written out field by field, and why every acknowledgement was sent. */
module StepLaws {
  import opened RaftTypes
  import opened FullLog
  import opened CatchUpBuffer
  import opened AppendPlacement
  import opened RaftProtocol
  import VC = VotingCommittee

  // ---------------------------------------------------------------- terms and roles

  /** Stale messages do nothing, newer ones make a follower, and a second leader of the own term forces an election. */
  lemma MessagesMoveTerms(self: PeerId, n: Node, src: PeerId, m: Message, env: Env, n': Node, out: set<Packet>)
    requires Receives(self, n, src, m, env, n', out)
    ensures m.term < n.term ==> n' == n && out == {}
    ensures n.term < m.term ==>
              n'.term == m.term && n'.role.Follower? && n'.role.leader == if m.AppendEntries? then Some(m.leader) else None
    ensures n.term == m.term && n.role.Candidate? && m.AppendEntries? ==>
              n'.term == n.term && n'.role.Follower? && n'.role.leader == Some(m.leader)
    ensures n.term == m.term && n.role.Leader? && m.AppendEntries? ==>
              n.term < n'.term && n'.role.Candidate? && n'.log == n.log && n'.lastVote == Some(Cast(n'.term, self))
    ensures n.term == m.term && (n.role.Follower? || !m.AppendEntries?) ==>
              n'.term == n.term && n'.role.Follower? == n.role.Follower? && n'.role.Leader? == n.role.Leader?
    ensures !m.AppendEntries? ==> n'.log == n.log && n'.base == n.base
    ensures !m.RequestVote? && !(n.role.Leader? && m.AppendEntries?) ==> n'.lastVote == n.lastVote
  {
    if n.term <= m.term {
      assert Handles(self, StepDown(n, m), src, m, env, n', out);
    }
  }

  // ---------------------------------------------------------------- a follower

  /** The node's log has the entry at this position, the start of the log counting as one of term 0. */
  predicate Has(n: Node, at: Cursor) {
    at == Cursor(0, 0) || (0 < at.index && n.base <= at.index <= |n.log| && n.log[at.index - 1].term == at.term)
  }

  /** What the node has buffered for the term of the message. */
  function BufferOf(n: Node, m: Message): seq<Buffered<Command>> {
    if n.term == m.term && n.role.Follower? && n.role.catchup.Some? then n.role.catchup.value else []
  }

  /** The batch follows what the node has: it commits as far as told and as its log goes, and acknowledges entries. */
  ghost predicate TakesBatch(self: PeerId, n: Node, src: PeerId, m: Message, n': Node, out: set<Packet>)
    requires m.AppendEntries? && n'.role.Follower?
  {
    && n'.role.catchup == (if n.term == m.term && n.role.Follower? then n.role.catchup else None)
    && n'.committed == Max(n.committed, Min(m.leaderCommit, |n'.log|))
    && (if n.committed < n'.committed then n'.applied == n.applied + n'.log[n.committed..n'.committed] else n'.applied == n.applied)
    && out == (if m.entries == [] then {}
               else {Packet(self, src, AppendEntriesResponse(m.term, if n.observer then Abstained else Granted, |n'.log|))})
  }

  /** The batch does not: a clashing entry goes, with what follows it, the batch is buffered, and nothing is answered. */
  ghost predicate BuffersBatch(n: Node, m: Message, n': Node, out: set<Packet>)
    requires m.AppendEntries? && n'.role.Follower?
  {
    var held, at := BufferOf(n, m), m.prev.index;
    && out == {} && n'.committed == n.committed && n'.applied == n.applied
    && n'.log == (if at == 0 || n.base <= at <= |n.log| then n.log[..Max(at - 1, Min(n.base, |n.log|))] else n.log)
    && n'.role.catchup.Some?
    && var now := n'.role.catchup.value;
    && |now| == |held| + |m.entries|
    && (forall i :: 0 <= i < |held| ==> now[i] == held[i])
    && (forall i :: |held| <= i < |now| ==> now[i] == Buffered(at + 1 + i - |held|, m.entries[i - |held|]))
  }

  lemma HasIsConsistent(n: Node, m: Message)
    requires m.AppendEntries?
    ensures Has(n, m.prev) <==> Consistent(n.log, n.base, m.prev)
  {
  }

  lemma Taking(self: PeerId, n: Node, src: PeerId, m: Message)
    requires FollowsUp(n, m) && Has(n, m.prev)
    ensures var d := StepDown(n, m);
            && d.role.Follower? && OnAppendEntries(d, m).role.Follower?
            && TakesBatch(self, n, src, m, OnAppendEntries(d, m), AppendReply(self, d, src, m))
  {
    HasIsConsistent(n, m);
  }

  lemma Buffering(self: PeerId, n: Node, src: PeerId, m: Message)
    requires FollowsUp(n, m) && !Has(n, m.prev)
    ensures var d := StepDown(n, m);
            && d.role.Follower? && OnAppendEntries(d, m).role.Follower?
            && BuffersBatch(n, m, OnAppendEntries(d, m), AppendReply(self, d, src, m))
  {
    HasIsConsistent(n, m);
  }

  /** A batch that reaches a follower is taken exactly when the node has what it follows, and buffered otherwise. */
  lemma FollowerTakesOrBuffers(self: PeerId, n: Node, src: PeerId, m: Message, env: Env, n': Node, out: set<Packet>)
    requires Receives(self, n, src, m, env, n', out) && FollowsUp(n, m)
    ensures n'.role.Follower? && n'.role.leader == Some(m.leader) && n'.term == m.term && n'.lastVote == n.lastVote && n'.base == n.base
    ensures if Has(n, m.prev) then TakesBatch(self, n, src, m, n', out) else BuffersBatch(n, m, n', out)
  {
    if Has(n, m.prev) {
      Taking(self, n, src, m);
    } else {
      Buffering(self, n, src, m);
    }
  }

  // ---------------------------------------------------------------- a leader

  /** An answer of its own term makes a leader commit to its committee's quorum index, clamped to its log, and nothing else. */
  lemma LeaderCommitsToQuorum(self: PeerId, n: Node, src: PeerId, m: Message, env: Env, n': Node, out: set<Packet>)
    requires Receives(self, n, src, m, env, n', out) && n.role.Leader? && m.AppendEntriesResponse? && m.term == n.term
    ensures n'.log == n.log && n'.term == n.term && n'.role == n.role.(roster := env.roster) && out == {}
    ensures VC.IsQuorumIndex(n'.role.roster.voters, env.quorum) && n'.committed == Max(n.committed, Min(env.quorum, |n.log|))
    ensures if n.committed < n'.committed then n'.applied == n.applied + n.log[n.committed..n'.committed] else n'.applied == n.applied
  {
    assert Handles(self, StepDown(n, m), src, m, env, n', out);
  }

  /** The credit a leader that knows `before` of peer `p` gives it on an answer of `src`, with `bonds` alive. */
  function CreditAfter(self: PeerId, before: Option<Index>, src: PeerId, m: Message, bonds: set<PeerId>, p: PeerId): Option<Index>
    requires m.AppendEntriesResponse?
  {
    if p == src && m.vote.Granted? then Some(m.lastLogIndex)
    else if p == src && m.vote.Abstained? then None
    else if p in bonds || p == self then before
    else None
  }

  lemma GrantedCredit(self: PeerId, roster: VC.Roster, src: PeerId, index: Index, env: Env, p: PeerId)
    requires VC.ValidRoster(self, roster) && CountsVote(self, roster, src, index, env)
    ensures VC.CreditOf(env.roster, p) ==
            if p == src then Some(index) else if p in env.bonds || p == self then VC.CreditOf(roster, p) else None
  {
    VC.StepMovesCredit(self, roster, VC.Purged(env.bonds), env.purged, p);
    VC.StepKeepsRoster(self, roster, VC.Purged(env.bonds), env.purged);
    VC.StepMovesCredit(self, env.purged, VC.Voted(src, index), env.roster, p);
  }

  lemma UngrantedCredit(self: PeerId, roster: VC.Roster, src: PeerId, abstained: bool, env: Env, p: PeerId)
    requires VC.ValidRoster(self, roster) && CountsNoVote(self, roster, src, abstained, env) && src != self
    ensures VC.CreditOf(env.roster, p) ==
            if (abstained && p == src) || (p !in env.bonds && p != self) then None else VC.CreditOf(roster, p)
  {
    if abstained {
      VC.StepMovesCredit(self, roster, VC.Removed(src), env.purged, p);
      VC.StepKeepsRoster(self, roster, VC.Removed(src), env.purged);
    }
    VC.StepMovesCredit(self, env.purged, VC.Purged(env.bonds), env.roster, p);
  }

  /**
   * An answer credits its sender with the index it grants, drops it if it abstains, drops whoever lost its bond, and
   * leaves every other credit alone.
   */
  lemma AnswersMoveCredit(self: PeerId, n: Node, src: PeerId, m: Message, env: Env, n': Node, out: set<Packet>, p: PeerId)
    requires Receives(self, n, src, m, env, n', out) && n.role.Leader? && m.AppendEntriesResponse? && m.term == n.term
    requires VC.ValidRoster(self, n.role.roster) && src != self
    ensures n'.role.Leader? && VC.CreditOf(n'.role.roster, p) == CreditAfter(self, VC.CreditOf(n.role.roster, p), src, m, env.bonds, p)
  {
    LeaderCommitsToQuorum(self, n, src, m, env, n', out);
    if m.vote.Granted? {
      GrantedCredit(self, n.role.roster, src, m.lastLogIndex, env, p);
    } else {
      UngrantedCredit(self, n.role.roster, src, m.vote.Abstained?, env, p);
    }
  }

  // ---------------------------------------------------------------- pruning

  /** Pruning keeps the whole log's meaning and never reaches the entry at the commit index. */
  lemma PruningStopsShortOfCommitted(self: PeerId, n: Node, e: Event, n': Node, out: set<Packet>)
    requires NodeStep(self, n, e, n', out) && e.Prune?
    ensures n'.log == n.log && n'.committed == n.committed && n'.applied == n.applied && n'.role == n.role && n'.term == n.term
    ensures n'.base != n.base ==> n.base < n'.base < n.committed && n'.base <= e.upTo && n'.base <= |n.log|
    ensures e.upTo < n.committed && e.upTo <= |n.log| ==> e.upTo <= n'.base
  {
  }

  // ---------------------------------------------------------------- acknowledgements, in every run

  /** At step `i` the sender of `k` took a batch of that term with entries, and `k` says where its log then ended. */
  ghost predicate AcknowledgedAt(start: System, steps: seq<Taken>, i: nat, k: Packet)
    requires i < |steps| && k.msg.AppendEntriesResponse?
  {
    var s, e, s' := StateAt(start, steps, i), steps[i].event, steps[i].state;
    && e.Receive? && e.node == k.src && e.src == k.dst
    && e.msg.AppendEntries? && e.msg.term == k.msg.term && e.msg.entries != []
    && k.src in s.nodes && k.src in s'.nodes
    && Has(s.nodes[k.src], e.msg.prev)
    && k.msg.lastLogIndex == |s'.nodes[k.src].log| && s'.nodes[k.src].term == k.msg.term
    && k.msg.vote == if s.nodes[k.src].observer then Abstained else Granted
  }

  lemma AcknowledgesForReason(self: PeerId, n: Node, e: Event, n': Node, out: set<Packet>, k: Packet)
    requires NodeStep(self, n, e, n', out) && e.node == self && k in out && k.msg.AppendEntriesResponse?
    ensures e.Receive? && FollowsUp(n, e.msg) && Receives(self, n, e.src, e.msg, e.env, n', out) && Has(n, e.msg.prev)
  {
    if e.Receive? && FollowsUp(n, e.msg) {
      FollowerTakesOrBuffers(self, n, e.src, e.msg, e.env, n', out);
    }
  }

  /** Every acknowledgement ever sent answers a batch that followed what its sender had, and tells its log's new end. */
  lemma {:induction false} AcknowledgementsHaveReasons(start: System, steps: seq<Taken>, n: nat, k: Packet)
    requires Run(start, steps) && n <= |steps| && k in StateAt(start, steps, n).net && k.msg.AppendEntriesResponse?
    ensures exists i :: 0 <= i < n && AcknowledgedAt(start, steps, i, k)
  {
    if n > 0 {
      assert TakenAt(start, steps, n - 1);
      var s, taken := StateAt(start, steps, n - 1), steps[n - 1];
      if k in s.net {
        AcknowledgementsHaveReasons(start, steps, n - 1, k);
      } else {
        var p, e := taken.event.node, taken.event;
        AcknowledgesForReason(p, s.nodes[p], e, taken.state.nodes[p], taken.out, k);
        FollowerTakesOrBuffers(p, s.nodes[p], e.src, e.msg, e.env, taken.state.nodes[p], taken.out);
        assert AcknowledgedAt(start, steps, n - 1, k);
      }
    }
  }

  // ---------------------------------------------------------------- announcements, in every run

  /**
   * A leader that becomes `n'` sends `k`: it names the end of the log and the commit index as they were, and carries
   * exactly what the step appends.
   */
  ghost predicate Announces(n: Node, n': Node, k: Packet)
    requires k.msg.AppendEntries?
  {
    && n.role.Leader? && n'.role.Leader? && n.term == n'.term == k.msg.term && k.msg.leader == k.src
    && k.msg.prev == Cursor(if n.log == [] then 0 else n.log[|n.log| - 1].term, |n.log|)
    && n'.log == n.log + k.msg.entries && k.msg.leaderCommit == n.committed
  }

  ghost predicate AnnouncedAt(start: System, steps: seq<Taken>, i: nat, k: Packet)
    requires i < |steps| && k.msg.AppendEntries?
  {
    var s, s' := StateAt(start, steps, i), steps[i].state;
    k.src in s.nodes && k.src in s'.nodes && Announces(s.nodes[k.src], s'.nodes[k.src], k)
  }

  lemma AnnouncesOwnLog(self: PeerId, n: Node, e: Event, n': Node, out: set<Packet>, k: Packet)
    requires NodeStep(self, n, e, n', out) && k in out && k.msg.AppendEntries?
    ensures k.src == self && Announces(n, n', k)
  {
    if e.Heartbeat? {
      assert n.log + [] == n.log;
    }
  }

  /** Every AppendEntries message ever sent was its leader's own log, as it stood then. */
  lemma {:induction false} AnnouncementsHaveReasons(start: System, steps: seq<Taken>, n: nat, k: Packet)
    requires Run(start, steps) && n <= |steps| && k in StateAt(start, steps, n).net && k.msg.AppendEntries?
    ensures exists i :: 0 <= i < n && AnnouncedAt(start, steps, i, k)
  {
    if n > 0 {
      assert TakenAt(start, steps, n - 1);
      var s, taken := StateAt(start, steps, n - 1), steps[n - 1];
      if k in s.net {
        AnnouncementsHaveReasons(start, steps, n - 1, k);
      } else {
        var p := taken.event.node;
        AnnouncesOwnLog(p, s.nodes[p], taken.event, taken.state.nodes[p], taken.out, k);
        assert AnnouncedAt(start, steps, n - 1, k);
      }
    }
  }
}
