/**
 * The replication protocol as a step relation. A node is its role, term, last vote, log and commit
 * position; the network is the set of packets ever sent, so packets may be lost, reordered and
 * delivered again at any time. Timers, bonds and clients are nondeterministic events.
 */
module RaftProtocol {
  import opened RaftTypes
  import opened FullLog
  import opened CatchUpBuffer
  import opened AppendPlacement
  import VC = VotingCommittee

  type Command(==, !new)
  type Log = seq<Entry<Command>>

  // ---------------------------------------------------------------- messages and nodes

  datatype Message =
    | AppendEntries(term: Term, leader: PeerId, prev: Cursor, entries: Log, leaderCommit: Index)
    | AppendEntriesResponse(term: Term, vote: Vote, lastLogIndex: Index)
    | RequestVote(term: Term, candidate: PeerId, logPosition: Cursor)
    | RequestVoteResponse(term: Term, vote: Vote)

  datatype Packet = Packet(src: PeerId, dst: PeerId, msg: Message)

  datatype Ballot = Ballot(requested: set<PeerId>, granted: set<PeerId>, abstained: set<PeerId>, denied: set<PeerId>)

  datatype Role =
    | Follower(leader: Option<PeerId>, catchup: Option<seq<Buffered<Command>>>)
    | Candidate(ballot: Ballot)
    | Leader(roster: VC.Roster, queue: seq<Command>)

  /** `log` is the whole log, `base` the pruned prefix, `applied` what the state machine has been fed, in order. */
  datatype Node = Node(
    observer: bool,
    term: Term,
    role: Role,
    lastVote: Option<Cast>,
    log: Log,
    base: Index,
    committed: Index,
    applied: Log)

  function Broadcast(self: PeerId, bonds: set<PeerId>, m: Message): set<Packet> {
    set p | p in bonds :: Packet(self, p, m)
  }

  // ---------------------------------------------------------------- votes and elections

  predicate CanVote(lastVote: Option<Cast>, term: Term, candidate: PeerId) {
    lastVote.None? || lastVote.value.term < term || lastVote.value == Cast(term, candidate)
  }

  /** The first term from `term` on in which `self` may still vote for itself. */
  function NextVotable(lastVote: Option<Cast>, self: PeerId, term: Term): (t: Term)
    ensures term <= t && CanVote(lastVote, t, self)
    decreases if lastVote.Some? then lastVote.value.term + 1 - term else 0
  {
    if CanVote(lastVote, term, self) then term else NextVotable(lastVote, self, term + 1)
  }

  function Quorum(b: Ballot): nat {
    Max(|b.requested| - |b.abstained|, 0) / 2 + 1
  }

  predicate QuorumReached(b: Ballot) {
    |b.granted| >= Quorum(b)
  }

  function Campaign(self: PeerId, n: Node, term: Term, bonds: set<PeerId>): Node {
    var t := NextVotable(n.lastVote, self, term);
    n.(term := t, role := Candidate(Ballot(bonds + {self}, {self}, {}, {})), lastVote := Some(Cast(t, self)))
  }

  function CampaignPackets(self: PeerId, n: Node, term: Term, bonds: set<PeerId>): set<Packet> {
    Broadcast(self, bonds, RequestVote(NextVotable(n.lastVote, self, term), self, Last(n.log)))
  }

  function VoteFor(n: Node, term: Term, candidate: PeerId, position: Cursor): Vote {
    if !CanVote(n.lastVote, term, candidate) || position.IsBehind(Last(n.log)) then Denied
    else if Last(n.log).IsBehind(position) || n.observer then Abstained
    else Granted
  }

  /** A vote is recorded whenever the cursors are equal, also by an observer that then abstains. */
  function AfterVote(n: Node, term: Term, candidate: PeerId, sender: PeerId, position: Cursor): Node {
    if CanVote(n.lastVote, term, candidate) && position == Last(n.log)
    then n.(lastVote := Some(Cast(term, sender)))
    else n
  }

  function Tally(b: Ballot, sender: PeerId, vote: Vote): Ballot {
    if sender !in b.requested then b
    else match vote
      case Granted => b.(granted := b.granted + {sender})
      case Abstained => b.(abstained := b.abstained + {sender})
      case Denied => b.(denied := b.denied + {sender})
  }

  // ---------------------------------------------------------------- replication

  /** Commits up to `index`, but never past the end of the log. */
  function CommitUpTo(n: Node, index: Index): Node {
    var hi := Min(index, |n.log|);
    if n.committed < hi
    then n.(committed := hi, applied := n.applied + n.log[n.committed..hi])
    else n
  }

  /** An AppendEntries message handled by a follower of its term. */
  function OnAppendEntries(n: Node, m: Message): Node
    requires n.role.Follower? && m.AppendEntries?
  {
    if Consistent(n.log, n.base, m.prev) then
      CommitUpTo(n.(role := n.role.(leader := Some(m.leader)),
                    log := Accepted(n.log, n.base, m.prev, m.entries)), m.leaderCommit)
    else
      var buffered := if n.role.catchup.Some? then n.role.catchup.value else [];
      n.(role := Follower(Some(m.leader), Some(buffered + Numbered(m.prev.index, m.entries))),
         log := Reconciled(n.log, n.base, m.prev, m.entries))
  }

  function AppendReply(self: PeerId, n: Node, src: PeerId, m: Message): set<Packet>
    requires m.AppendEntries?
  {
    if Consistent(n.log, n.base, m.prev) && m.entries != [] then
      {Packet(self, src, AppendEntriesResponse(n.term, if n.observer then Abstained else Granted,
                                               |Accepted(n.log, n.base, m.prev, m.entries)|))}
    else {}
  }

  /** What the environment chooses: the live bonds, and how ties among hash-table entries fall. */
  datatype Env = Env(bonds: set<PeerId>, purged: VC.Roster, roster: VC.Roster, quorum: Index)

  /** The committee purges dead members, counts `index` for `follower`, and reads off its quorum index. */
  ghost predicate CountsVote(self: PeerId, roster: VC.Roster, follower: PeerId, index: Index, env: Env) {
    && VC.Step(self, roster, VC.Purged(env.bonds), env.purged)
    && VC.Step(self, env.purged, VC.Voted(follower, index), env.roster)
    && VC.IsQuorumIndex(env.roster.voters, env.quorum)
  }

  /** The committee drops a follower that abstained, purges dead members, and reads off its quorum index. */
  ghost predicate CountsNoVote(self: PeerId, roster: VC.Roster, follower: PeerId, abstained: bool, env: Env) {
    && (if abstained then VC.Step(self, roster, VC.Removed(follower), env.purged) else env.purged == roster)
    && VC.Step(self, env.purged, VC.Purged(env.bonds), env.roster)
    && VC.IsQuorumIndex(env.roster.voters, env.quorum)
  }

  /** The leader commits what a majority of its new committee has acknowledged. */
  function WithCommittee(n: Node, env: Env): Node
    requires n.role.Leader?
  {
    CommitUpTo(n.(role := n.role.(roster := env.roster)), env.quorum)
  }

  function LeaderOf(m: Message): Option<PeerId> {
    if m.AppendEntries? then Some(m.leader) else None
  }

  /** Any message of a higher term makes a node a follower of that term; a candidate also yields to a leader of its own term. */
  function StepDown(n: Node, m: Message): Node {
    if n.term < m.term || (n.role.Candidate? && m.AppendEntries?)
    then n.(term := m.term, role := Follower(LeaderOf(m), None))
    else n
  }

  /** Handling a message whose term is the node's own. */
  ghost predicate Handles(self: PeerId, n: Node, src: PeerId, m: Message, env: Env, n': Node, out: set<Packet>)
  {
    match m
    case RequestVote(term, candidate, position) =>
      && n' == AfterVote(n, term, candidate, src, position)
      && out == {Packet(self, src, RequestVoteResponse(term, VoteFor(n, term, candidate, position)))}
    case RequestVoteResponse(_, vote) =>
      n' == (if n.role.Candidate? then n.(role := Candidate(Tally(n.role.ballot, src, vote))) else n) && out == {}
    case AppendEntries(_, _, _, _, _) =>
      if n.role.Follower? then n' == OnAppendEntries(n, m) && out == AppendReply(self, n, src, m)
      else n' == Campaign(self, n, n.term + 1, env.bonds) && out == CampaignPackets(self, n, n.term + 1, env.bonds)
    case AppendEntriesResponse(_, vote, index) =>
      && out == {}
      && if !n.role.Leader? then n' == n
         else && n' == WithCommittee(n, env)
              && if vote.Granted? then CountsVote(self, n.role.roster, src, index, env)
                 else CountsNoVote(self, n.role.roster, src, vote.Abstained?, env)
  }

  ghost predicate Receives(self: PeerId, n: Node, src: PeerId, m: Message, env: Env, n': Node, out: set<Packet>)
  {
    if m.term < n.term then n' == n && out == {}
    else Handles(self, StepDown(n, m), src, m, env, n', out)
  }

  function WithTerm(t: Term, commands: seq<Command>): (r: Log)
    ensures |r| == |commands|
  {
    seq(|commands|, i requires 0 <= i < |commands| => Entry(t, commands[i]))
  }

  /** The index the last queued command will get. */
  function PromisedIndex(n: Node): Index
    requires n.role.Leader?
  {
    |n.log| + |n.role.queue|
  }

  /** The leader appends its queue to its log and broadcasts the batch; unserialisable batches are reverted. */
  ghost predicate Flushes(self: PeerId, n: Node, sent: bool, env: Env, n': Node, out: set<Packet>)
    requires n.role.Leader?
  {
    var batch := WithTerm(n.term, n.role.queue);
    var emptied := n.(role := n.role.(queue := []));
    if !sent then n' == emptied && out == {}
    else
      && out == Broadcast(self, env.bonds, AppendEntries(n.term, self, Last(n.log), batch, n.committed))
      && CountsVote(self, n.role.roster, self, PromisedIndex(n), env)
      && n' == WithCommittee(emptied.(log := n.log + batch), env)
  }

  /** Finishing a catch-up: the snapshot stands for `prefix`, and the buffered entries behind it follow. */
  ghost predicate Installs(n: Node, prefix: Log, n': Node) {
    && n.role.Follower? && n.role.catchup.Some?
    && Adjoins(Tail(n.role.catchup.value, |prefix|), |prefix|)
    && n' == n.(role := n.role.(catchup := None), log := Installed(prefix, n.role.catchup.value),
                base := |prefix|, committed := |prefix|, applied := prefix)
  }

  // ---------------------------------------------------------------- the system

  /** What happened in a term: its leader, the peers that elected it, its log and its commit index so far. */
  datatype Reign = Reign(leader: PeerId, voters: set<PeerId>, log: Log, commit: Index)

  /** A vote that was cast, by whom and for whom. */
  datatype Voted = Voted(voter: PeerId, cast: Cast)

  /** `reigns`, `votes` and `offers` are history: they record what happened and only `offers` is ever read by a step. */
  datatype System = System(
    nodes: map<PeerId, Node>,
    net: set<Packet>,
    reigns: map<Term, Reign>,
    votes: set<Voted>,
    offers: set<Log>)

  datatype Event =
    | Receive(node: PeerId, src: PeerId, msg: Message, env: Env)
    | Timeout(node: PeerId, bonds: set<PeerId>)
    | Win(node: PeerId)
    | Enqueue(node: PeerId, commands: seq<Command>)
    | Flush(node: PeerId, sent: bool, env: Env)
    | Heartbeat(node: PeerId, bonds: set<PeerId>)
    | Prune(node: PeerId, upTo: Index)
    | Offer(node: PeerId, upTo: Index)
    | Install(node: PeerId, prefix: Log)

  ghost predicate NodeStep(self: PeerId, n: Node, e: Event, n': Node, out: set<Packet>) {
    match e
    case Receive(_, src, m, env) =>
      src != self && Receives(self, n, src, m, env, n', out)
    case Timeout(_, bonds) =>
      && (n.role.Candidate? || (n.role.Follower? && n.role.catchup.None? && !n.observer))
      && n' == Campaign(self, n, n.term + 1, bonds)
      && out == CampaignPackets(self, n, n.term + 1, bonds)
    case Win(_) =>
      && n.role.Candidate? && QuorumReached(n.role.ballot)
      && n' == n.(role := Leader(VC.InitialRoster(n.role.ballot.granted, |n.log|), []))
      && out == {}
    case Enqueue(_, commands) =>
      n.role.Leader? && n' == n.(role := n.role.(queue := n.role.queue + commands)) && out == {}
    case Flush(_, sent, env) =>
      n.role.Leader? && n.role.queue != [] && Flushes(self, n, sent, env, n', out)
    case Heartbeat(_, bonds) =>
      && n.role.Leader? && n' == n
      && out == Broadcast(self, bonds, AppendEntries(n.term, self, Last(n.log), [], n.committed))
    case Prune(_, upTo) =>
      && n.committed > 0 && out == {}
      && n' == n.(base := Max(n.base, Min(Min(upTo, n.committed - 1), |n.log|)))
    case Offer(_, upTo) =>
      0 < upTo <= |n.applied| && n' == n && out == {}
    case Install(_, prefix) =>
      Installs(n, prefix, n') && out == {}
  }

  function Electors(s: System, p: PeerId, term: Term): set<PeerId>
    requires p in s.nodes
  {
    if s.nodes[p].role.Candidate? then s.nodes[p].role.ballot.granted
    else if term in s.reigns then s.reigns[term].voters
    else {}
  }

  /** Node `p` becomes `n'` and sends `out`; the history follows. */
  function Update(s: System, p: PeerId, n': Node, out: set<Packet>): System
    requires p in s.nodes
  {
    s.(nodes := s.nodes[p := n'],
       net := s.net + out,
       reigns := if n'.role.Leader?
                 then s.reigns[n'.term := Reign(p, Electors(s, p, n'.term), n'.log, n'.committed)]
                 else s.reigns,
       votes := if n'.lastVote.Some? then s.votes + {Voted(p, n'.lastVote.value)} else s.votes)
  }

  ghost predicate Next(s: System, e: Event, out: set<Packet>, s': System) {
    && e.node in s.nodes && e.node in s'.nodes
    && (e.Receive? ==> Packet(e.src, e.node, e.msg) in s.net)
    && (e.Install? ==> e.prefix in s.offers)
    && NodeStep(e.node, s.nodes[e.node], e, s'.nodes[e.node], out)
    && s' == Update(s, e.node, s'.nodes[e.node], out).(
               offers := if e.Offer? then s.offers + {s.nodes[e.node].applied[..e.upTo]} else s.offers)
  }

  function Fresh(observer: bool): Node {
    Node(observer, 0, Follower(None, None), None, [], 0, 0, [])
  }

  ghost predicate Init(s: System) {
    && (forall p :: p in s.nodes ==> s.nodes[p] == Fresh(s.nodes[p].observer))
    && s.net == {} && s.reigns == map[] && s.votes == {} && s.offers == {}
  }

  /** One step of a run: what happened, what was sent, and the state reached. */
  datatype Taken = Taken(event: Event, out: set<Packet>, state: System)

  function StateAt(start: System, steps: seq<Taken>, i: nat): System
    requires i <= |steps|
  {
    if i == 0 then start else steps[i - 1].state
  }

  ghost predicate TakenAt(start: System, steps: seq<Taken>, i: nat)
    requires i < |steps|
  {
    Next(StateAt(start, steps, i), steps[i].event, steps[i].out, steps[i].state)
  }

  ghost predicate Run(start: System, steps: seq<Taken>) {
    Init(start) && forall i :: 0 <= i < |steps| ==> TakenAt(start, steps, i)
  }

  // ---------------------------------------------------------------- hypotheses on runs

  /** Does node `n` act on message `m` as a follower? */
  predicate FollowsUp(n: Node, m: Message) {
    m.AppendEntries? && n.term <= m.term && (n.term < m.term || !n.role.Leader?)
  }

  /** At most one leader per term: a candidate wins only in a term that has had no leader. */
  predicate OneLeader(s: System, e: Event)
    requires e.node in s.nodes
  {
    e.Win? ==> s.nodes[e.node].term !in s.reigns
  }

  /** No batch sent for the very start of the log reaches a follower that has pruned. */
  predicate AbovePruning(s: System, e: Event)
    requires e.node in s.nodes
  {
    e.Receive? && FollowsUp(s.nodes[e.node], e.msg) && e.msg.entries != [] && e.msg.prev.index == 0
    ==> s.nodes[e.node].base == 0
  }

  /** An installed snapshot is a prefix of the log of the leader of the node's term. */
  predicate SnapshotAgrees(s: System, e: Event)
    requires e.node in s.nodes
  {
    e.Install? ==> s.nodes[e.node].term in s.reigns && e.prefix <= s.reigns[s.nodes[e.node].term].log
  }

  /** No truncation at or below the commit index. */
  predicate KeepsCommitted(s: System, e: Event)
    requires e.node in s.nodes
  {
    e.Receive? && FollowsUp(s.nodes[e.node], e.msg)
    ==> s.nodes[e.node].committed <= |Reconciled(s.nodes[e.node].log, s.nodes[e.node].base, e.msg.prev, e.msg.entries)|
  }

  /** Installing a snapshot does not shorten the log. */
  predicate InstallExtends(s: System, e: Event)
    requires e.node in s.nodes
  {
    e.Install? && s.nodes[e.node].role.Follower? && s.nodes[e.node].role.catchup.Some?
    ==> |s.nodes[e.node].log| <= |e.prefix| + |Tail(s.nodes[e.node].role.catchup.value, |e.prefix|)|
  }
}
