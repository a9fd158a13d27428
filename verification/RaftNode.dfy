/**
 * One node of the group, with its role, term and shared state updated in place. Every method is proved
 * to be the corresponding transition of the protocol.
 */
module RaftNodes {
  import opened RaftTypes
  import opened FullLog
  import opened CatchUpBuffer
  import opened AppendPlacement
  import opened RaftProtocol
  import opened LogStore
  import opened SharedState
  import VC = VotingCommittee

  datatype RoleTag = FollowerRole | CandidateRole | LeaderRole

  class RaftNode<S> {
    const self: PeerId
    const observer: bool
    const shared: Shared<S, Command>
    var tag: RoleTag
    var term: Term
    // follower
    var leader: Option<PeerId>
    var catchup: Option<seq<Buffered<Command>>>
    // candidate
    var ballot: Ballot
    // leader
    var committee: VC.Committee
    var queue: seq<Command>

    ghost function RoleState(): Role
      reads this, committee
    {
      match tag
      case FollowerRole => Follower(leader, catchup)
      case CandidateRole => Candidate(ballot)
      case LeaderRole => Leader(committee.State(), queue)
    }

    ghost function State(): Node
      reads this, shared, shared.store, committee
    {
      Node(observer, term, RoleState(), shared.lastVote, shared.store.full, shared.store.offset,
           shared.committed.index, shared.applied)
    }

    ghost predicate Valid()
      reads this, shared, shared.store, committee
    {
      shared.Valid() && (tag.LeaderRole? ==> self in committee.voters)
    }

    constructor (self: PeerId, observer: bool, shared: Shared<S, Command>)
      requires shared.Valid() && shared.store.full == [] && shared.store.offset == 0
      requires shared.committed == Cursor(0, 0) && shared.applied == [] && shared.lastVote == None
      ensures Valid() && this.self == self && this.shared == shared && fresh(committee)
      ensures State() == Fresh(observer)
    {
      this.self, this.observer, this.shared := self, observer, shared;
      tag, term, leader, catchup := FollowerRole, 0, None, None;
      ballot, queue := Ballot({}, {}, {}, {}), [];
      committee := new VC.Committee({}, 0);
    }

    // -------------------------------------------------------------- elections

    /** Starts an election in the first term from `from` on in which the node may still vote for itself. */
    method StartElection(from: Term, bonds: set<PeerId>) returns (out: set<Packet>)
      requires Valid()
      modifies this, shared`lastVote
      ensures Valid() && committee == old(committee)
      ensures State() == Campaign(self, old(State()), from, bonds)
      ensures out == CampaignPackets(self, old(State()), from, bonds)
    {
      var t := from;
      while !shared.CanVote(t, self)
        invariant from <= t && NextVotable(shared.lastVote, self, t) == NextVotable(shared.lastVote, self, from)
        decreases if shared.lastVote.Some? then shared.lastVote.value.term + 1 - t else 0
      {
        t := t + 1;
      }
      out := Broadcast(self, bonds, RequestVote(t, self, shared.store.Last()));
      ballot := Ballot(bonds + {self}, {self}, {}, {});
      shared.SaveVote(t, self);
      tag, term := CandidateRole, t;
    }

    /** The election timeout: observers and nodes that are catching up never campaign. */
    method OnElectionTimeout(bonds: set<PeerId>) returns (out: set<Packet>)
      requires Valid() && !tag.LeaderRole?
      modifies this, shared`lastVote
      ensures Valid()
      ensures if old(tag.FollowerRole? && (catchup.Some? || observer)) then State() == old(State()) && out == {}
              else NodeStep(self, old(State()), Timeout(self, bonds), State(), out)
    {
      out := {};
      if tag.FollowerRole? && (catchup.Some? || observer) {
        return;
      }
      out := StartElection(term + 1, bonds);
    }

    /** Handles a vote request of the node's own term and answers the sender. */
    method CastVote(src: PeerId, m: Message) returns (out: set<Packet>)
      requires Valid() && m.RequestVote?
      modifies shared`lastVote
      ensures Valid()
      ensures State() == AfterVote(old(State()), m.term, m.candidate, src, m.logPosition)
      ensures out == {Packet(self, src, RequestVoteResponse(m.term, VoteFor(old(State()), m.term, m.candidate, m.logPosition)))}
    {
      var local := shared.store.Last();
      var vote: Vote;
      if !shared.CanVote(m.term, m.candidate) {
        vote := Denied;
      } else if m.logPosition.IsBehind(local) {
        vote := Denied;
      } else if local.IsBehind(m.logPosition) {
        vote := Abstained;
      } else {
        shared.SaveVote(m.term, src);
        vote := if observer then Abstained else Granted;
      }
      out := {Packet(self, src, RequestVoteResponse(m.term, vote))};
    }

    method CountVote(src: PeerId, vote: Vote)
      requires Valid() && tag.CandidateRole?
      modifies this`ballot
      ensures Valid()
      ensures State() == old(State()).(role := Candidate(Tally(old(ballot), src, vote)))
      ensures ballot.requested == old(ballot.requested)
      ensures forall v :: v in ballot.granted <==> v in old(ballot.granted) || (v == src && vote.Granted? && v in ballot.requested)
      ensures forall v :: v in ballot.abstained <==> v in old(ballot.abstained) || (v == src && vote.Abstained? && v in ballot.requested)
      ensures forall v :: v in ballot.denied <==> v in old(ballot.denied) || (v == src && vote.Denied? && v in ballot.requested)
    {
      if src !in ballot.requested {
        return;
      }
      match vote
      case Granted => ballot := ballot.(granted := ballot.granted + {src});
      case Abstained => ballot := ballot.(abstained := ballot.abstained + {src});
      case Denied => ballot := ballot.(denied := ballot.denied + {src});
    }

    /** A candidate that has reached its quorum leads, and credits its voters with its own last index. */
    method BecomeLeader()
      requires Valid() && tag.CandidateRole? && self in ballot.granted && QuorumReached(ballot)
      modifies this
      ensures Valid() && fresh(committee)
      ensures NodeStep(self, old(State()), Win(self), State(), {})
    {
      committee := new VC.Committee(ballot.granted, shared.store.Last().index);
      tag, queue := LeaderRole, [];
    }

    // -------------------------------------------------------------- following

    method BecomeFollower(t: Term, known: Option<PeerId>)
      requires Valid()
      modifies this
      ensures Valid() && committee == old(committee)
      ensures State() == old(State()).(term := t, role := Follower(known, None))
    {
      tag, term, leader, catchup := FollowerRole, t, known, None;
    }

    /** Appends the missing entries of a batch that follows a position the logs agree on, and commits. */
    method AcceptInSyncEntries(src: PeerId, m: Message) returns (out: set<Packet>)
      requires Valid() && m.AppendEntries?
      modifies shared`machine, shared`committed, shared`applied, shared.store
      ensures Valid()
      ensures var log := AppendMissing(old(shared.store.full), old(shared.store.offset), m.prev.index + 1, m.entries);
              && State() == CommitUpTo(old(State()).(log := log), m.leaderCommit)
              && out == if m.entries == [] then {} else {Acknowledgement(src, |log|)}
    {
      AppendEach(shared.store, m.prev.index + 1, m.entries);
      out := if m.entries == [] then {} else {Acknowledgement(src, shared.store.Last().index)};
      CommitTo(m.leaderCommit);
    }

    function Acknowledgement(to: PeerId, index: Index): Packet
      reads this
    {
      Packet(self, to, AppendEntriesResponse(term, if observer then Abstained else Granted, index))
    }

    /** Advances the commit index to what both the leader has committed and the local log holds. */
    method CommitTo(index: Index)
      requires Valid()
      modifies shared`machine, shared`committed, shared`applied
      ensures Valid() && State() == CommitUpTo(old(State()), index)
    {
      var target := Min(index, shared.store.Last().index);
      if shared.committed.index < target {
        var _ := shared.CommitUpTo(target);
      }
    }

    /** Checks the log against the position a batch follows and drops what conflicts with the leader. */
    method Reconcile(m: Message) returns (consistent: bool)
      requires Valid() && m.AppendEntries?
      modifies shared.store
      ensures Valid() && shared.store.offset == old(shared.store.offset)
      ensures consistent == Consistent(old(shared.store.full), shared.store.offset, m.prev)
      ensures shared.store.full == Reconciled(old(shared.store.full), shared.store.offset, m.prev, m.entries)
    {
      var local := shared.store.TermAt(m.prev.index);
      consistent := local == Some(m.prev.term);
      if consistent {
        if m.entries != [] {
          var existing := shared.store.TermAt(m.prev.index + 1);
          if existing.Some? && existing.value != m.entries[0].term {
            shared.store.Truncate(m.prev.index + 1);
          }
        }
      } else if local.Some? {
        shared.store.Truncate(m.prev.index);
      }
    }

    /** Handles AppendEntries of the follower's own term. */
    method FollowLeader(src: PeerId, m: Message) returns (out: set<Packet>)
      requires Valid() && tag.FollowerRole? && m.AppendEntries?
      modifies this`leader, this`catchup, shared`machine, shared`committed, shared`applied, shared.store
      ensures Valid() && State() == OnAppendEntries(old(State()), m) && out == AppendReply(self, old(State()), src, m)
    {
      ghost var n := State();
      leader := Some(m.leader);
      var consistent := Reconcile(m);
      assert State() == n.(role := n.role.(leader := Some(m.leader)), log := Reconciled(n.log, n.base, m.prev, m.entries));
      if consistent {
        out := AcceptInSyncEntries(src, m);
      } else {
        var kept := if catchup.Some? then catchup.value else [];
        catchup := Some(kept + Numbered(m.prev.index, m.entries));
        out := {};
      }
    }

    /**
     * Finishes a catch-up with a snapshot taken from `prefix`. The buffered entries are those of the follower's own
     * session; when they do not adjoin the anchor the node stops.
     */
    method FinishCatchUp(snapshot: S, anchor: Cursor, ghost prefix: Log) returns (ok: bool)
      requires Valid() && tag.FollowerRole? && catchup.Some?
      requires anchor == Last(prefix) && snapshot == Replay(shared.step, shared.initial, prefix)
      modifies this`catchup, shared`machine, shared`committed, shared`applied, shared.store
      ensures ok <==> Adjoins(Tail(old(catchup.value), anchor.index), anchor.index)
      ensures ok ==> Valid() && NodeStep(self, old(State()), Install(self, prefix), State(), {})
    {
      ok := shared.InstallAt(snapshot, anchor, catchup.value, prefix);
      catchup := None;
    }

    // -------------------------------------------------------------- leading

    /** Counts a vote and commits what a majority of the committee has acknowledged. */
    method RecordVote(follower: PeerId, index: Index, bonds: set<PeerId>) returns (ghost env: Env)
      requires Valid() && tag.LeaderRole?
      modifies committee, shared`machine, shared`committed, shared`applied
      ensures Valid() && env.bonds == bonds && CountsVote(self, old(committee.State()), follower, index, env)
      ensures State() == WithCommittee(old(State()), env)
    {
      ghost var n := State();
      var quorum;
      quorum, env := CountAndRead(follower, index, bonds);
      assert State() == n.(role := n.role.(roster := env.roster));
      CommitTo(quorum);
    }

    method CountAndRead(follower: PeerId, index: Index, bonds: set<PeerId>) returns (quorum: Index, ghost env: Env)
      requires self in committee.voters
      modifies committee
      ensures self in committee.voters && env.bonds == bonds && env.roster == committee.State() && env.quorum == quorum
      ensures CountsVote(self, old(committee.State()), follower, index, env)
    {
      committee.RemoveDeadVoters(self, bonds);
      ghost var purged := committee.State();
      PurgeKeepsLeader(self, old(committee.State()), bonds, purged);
      quorum := committee.RecordVote(follower, index);
      VoteKeepsLeader(self, purged, follower, index, committee.State());
      env := Env(bonds, purged, committee.State(), quorum);
    }

    method RecordNoVote(follower: PeerId, abstained: bool, bonds: set<PeerId>) returns (ghost env: Env)
      requires Valid() && tag.LeaderRole? && follower != self
      modifies committee, shared`machine, shared`committed, shared`applied
      ensures Valid() && CountsNoVote(self, old(committee.State()), follower, abstained, env)
      ensures State() == WithCommittee(old(State()), env)
    {
      ghost var n := State();
      var quorum;
      quorum, env := DropAndRead(follower, abstained, bonds);
      assert State() == n.(role := n.role.(roster := env.roster));
      CommitTo(quorum);
    }

    method DropAndRead(follower: PeerId, abstained: bool, bonds: set<PeerId>) returns (quorum: Index, ghost env: Env)
      requires self in committee.voters && follower != self
      modifies committee
      ensures self in committee.voters && env.roster == committee.State() && env.quorum == quorum
      ensures CountsNoVote(self, old(committee.State()), follower, abstained, env)
    {
      if abstained {
        committee.Remove(self, follower);
        RemovalKeepsLeader(self, old(committee.State()), follower, committee.State());
      }
      ghost var purged := committee.State();
      quorum := PurgeAndRead(bonds);
      env := Env(bonds, purged, committee.State(), quorum);
    }

    method PurgeAndRead(bonds: set<PeerId>) returns (quorum: Index)
      requires self in committee.voters
      modifies committee
      ensures self in committee.voters && VC.Step(self, old(committee.State()), VC.Purged(bonds), committee.State())
      ensures VC.IsQuorumIndex(committee.voters, quorum)
    {
      committee.RemoveDeadVoters(self, bonds);
      PurgeKeepsLeader(self, old(committee.State()), bonds, committee.State());
      quorum := committee.HighestQuorumIndex();
    }

    /** Queues client commands and tells the client which indices they will get. */
    method EnqueueCommands(commands: seq<Command>) returns (promised: (Index, Index))
      requires Valid() && tag.LeaderRole?
      modifies this`queue
      ensures Valid() && NodeStep(self, old(State()), Enqueue(self, commands), State(), {})
      ensures promised == if commands == [] then (0, 0)
                          else (PromisedIndex(old(State())) + 1, PromisedIndex(old(State())) + |commands|)
    {
      var last := shared.store.Last().index + |queue|;
      queue := queue + commands;
      if commands == [] {
        promised := (0, 0);
      } else {
        promised := (last + 1, last + |commands|);
      }
    }

    /** Appends the queue to the log and broadcasts it; when the batch cannot be encoded the log is reverted. */
    method PublishPending(bonds: set<PeerId>, encodes: bool) returns (out: set<Packet>, ghost env: Env)
      requires Valid() && tag.LeaderRole? && queue != []
      modifies this`queue, committee, shared`machine, shared`committed, shared`applied, shared.store
      ensures Valid() && Flushes(self, old(State()), encodes, env, State(), out)
    {
      var prev := shared.store.Last();
      var entries := WithTerm(term, queue);
      var last := prev.index + |queue|;
      StageQueue(entries);
      if encodes {
        out := Broadcast(self, bonds, AppendEntries(term, self, prev, entries, shared.committed.index));
        assert last == PromisedIndex(old(State()));
        env := RecordVote(self, last, bonds);
      } else {
        shared.store.Truncate(prev.index + 1);
        RevertedLog(old(shared.store.full), shared.store.offset, entries);
        out := {};
        env := Env(bonds, committee.State(), committee.State(), 0);
      }
    }

    method StageQueue(entries: Log)
      requires Valid() && tag.LeaderRole?
      modifies this`queue, shared.store
      ensures Valid()
      ensures State() == old(State()).(role := old(State()).role.(queue := [])).(log := old(shared.store.full) + entries)
    {
      AppendAll(shared.store, entries);
      queue := [];
    }

    method SendHeartbeat(bonds: set<PeerId>) returns (out: set<Packet>)
      requires Valid() && tag.LeaderRole?
      ensures NodeStep(self, State(), Heartbeat(self, bonds), State(), out)
    {
      out := Broadcast(self, bonds, AppendEntries(term, self, shared.store.Last(), [], shared.committed.index));
    }

    // -------------------------------------------------------------- messages

    /** Dispatches a message: stale ones are dropped, newer terms are followed, and the role handles the rest. */
    method ReceiveProtocolMessage(src: PeerId, m: Message, bonds: set<PeerId>) returns (out: set<Packet>, ghost env: Env)
      requires Valid() && src != self
      modifies this, committee, shared, shared.store
      ensures Valid() && Receives(self, old(State()), src, m, env, State(), out)
    {
      out := {};
      env := Env(bonds, committee.State(), committee.State(), 0);
      if m.term < term {
        return;
      }
      ghost var before := State();
      if term < m.term || (tag.CandidateRole? && m.AppendEntries?) {
        BecomeFollower(m.term, if m.AppendEntries? then Some(m.leader) else None);
      }
      assert State() == StepDown(before, m);
      out, env := HandleMessage(src, m, bonds);
    }

    method HandleMessage(src: PeerId, m: Message, bonds: set<PeerId>) returns (out: set<Packet>, ghost env: Env)
      requires Valid() && src != self && m.term == term && (tag.CandidateRole? ==> !m.AppendEntries?)
      modifies this, committee, shared, shared.store
      ensures Valid() && Handles(self, old(State()), src, m, env, State(), out)
    {
      out := {};
      env := Env(bonds, committee.State(), committee.State(), 0);
      match m
      case RequestVote(_, _, _) =>
        out := CastVote(src, m);
      case RequestVoteResponse(_, vote) =>
        if tag.CandidateRole? {
          CountVote(src, vote);
        }
      case AppendEntries(_, _, _, _, _) =>
        if tag.FollowerRole? {
          out := FollowLeader(src, m);
        } else {
          out := StartElection(term + 1, bonds);
        }
      case AppendEntriesResponse(_, vote, index) =>
        if tag.LeaderRole? {
          if vote.Granted? {
            env := RecordVote(src, index, bonds);
          } else {
            env := RecordNoVote(src, vote.Abstained?, bonds);
          }
        }
    }
  }

  /** Appends the entries of a batch, skipping those whose term is already at their index. */
  method AppendEach(store: InMemoryLogStore<Command>, start: Index, entries: Log)
    requires store.Valid()
    modifies store
    ensures store.Valid() && store.offset == old(store.offset)
    ensures store.full == AppendMissing(old(store.full), store.offset, start, entries)
  {
    ghost var base, merged := store.offset, AppendMissing(store.full, store.offset, start, entries);
    for i := 0 to |entries|
      invariant store.Valid() && store.offset == base && RestMerges(store.full, base, start, entries, i, merged)
    {
      MergeNext(store.full, base, start, entries, i, merged);
      PushEntry(store, start + i, entries[i]);
    }
  }

  method PushEntry(store: InMemoryLogStore<Command>, at: Index, entry: Entry<Command>)
    requires store.Valid()
    modifies store
    ensures store.Valid() && store.offset == old(store.offset) && store.full == Push(old(store.full), store.offset, at, entry)
  {
    if store.TermAt(at) == Some(entry.term) {
      return;
    }
    var _ := store.Append(entry.command, entry.term);
  }

  /** Walking the rest of the batch, from entry `i` on, ends in `merged`. */
  ghost predicate RestMerges(log: Log, base: Index, start: Index, entries: Log, i: nat, merged: Log)
    requires i <= |entries|
  {
    AppendMissing(log, base, start + i, entries[i..]) == merged
  }

  method AppendAll(store: InMemoryLogStore<Command>, entries: Log)
    requires store.Valid()
    modifies store
    ensures store.Valid() && store.full == old(store.full) + entries && store.offset == old(store.offset)
  {
    for i := 0 to |entries|
      invariant store.Valid() && store.offset == old(store.offset)
      invariant store.full == old(store.full) + entries[..i]
    {
      var _ := store.Append(entries[i].command, entries[i].term);
      assert entries[..i + 1] == entries[..i] + [entries[i]];
    }
    assert entries[..|entries|] == entries;
  }

  /** The walk over a batch, one entry on. */
  lemma MergeNext(log: Log, base: Index, start: Index, entries: Log, i: nat, merged: Log)
    requires i < |entries| && RestMerges(log, base, start, entries, i, merged)
    ensures RestMerges(Push(log, base, start + i, entries[i]), base, start, entries, i + 1, merged)
  {
    assert entries[i..][0] == entries[i] && entries[i..][1..] == entries[i + 1..];
  }

  lemma RevertedLog(log: Log, base: Index, batch: Log)
    requires base <= |log| && batch != []
    ensures Truncated(log + batch, base, |log| + 1) == log
  {
  }

  lemma PurgeKeepsLeader(self: PeerId, r: VC.Roster, bonds: set<PeerId>, r': VC.Roster)
    requires self in r.voters && VC.Step(self, r, VC.Purged(bonds), r')
    ensures self in r'.voters
  {
  }

  lemma RemovalKeepsLeader(self: PeerId, r: VC.Roster, follower: PeerId, r': VC.Roster)
    requires self in r.voters && follower != self && VC.Step(self, r, VC.Removed(follower), r')
    ensures self in r'.voters
  {
  }

  lemma VoteKeepsLeader(self: PeerId, r: VC.Roster, follower: PeerId, index: Index, r': VC.Roster)
    requires self in r.voters && VC.VoteRecorded(r, follower, index, r')
    ensures self in r'.voters
  {
  }
}
