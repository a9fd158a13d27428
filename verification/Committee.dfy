/** The leader's voting committee: who votes on commits, and what index a majority has acknowledged. */
module VotingCommittee {
  import opened RaftTypes
  import opened Sorting

  const MAX_COMMITTEE_SIZE: nat := 5

  /** Voters and followers that could be promoted, with the last index each has acknowledged. */
  datatype Roster = Roster(voters: map<PeerId, Index>, nonVoters: map<PeerId, Index>)

  /** The committee of a new leader: everyone who granted it a vote, credited with its last index. */
  function InitialRoster(granted: set<PeerId>, last: Index): Roster {
    Roster(map p | p in granted :: last, map[])
  }

  function TargetSize(r: Roster): nat {
    var capped := Min(MAX_COMMITTEE_SIZE, |r.voters.Keys| + |r.nonVoters.Keys|);
    if capped <= 2 || capped % 2 == 1 then capped else capped + 1
  }

  /** How many non-voters a backfill promotes: enough to reach the target, one fewer if that would be even. */
  function PromoteCount(r: Roster): nat {
    var n := |r.voters.Keys|;
    if TargetSize(r) <= n then 0
    else
      var available := Min(|r.nonVoters.Keys|, TargetSize(r) - n);
      if (n + available) % 2 == 0 then Max(available - 1, 0) else available
  }

  /** `promoted` are non-voters, none of which lags behind a non-voter left out. */
  ghost predicate MostCaughtUp(r: Roster, promoted: set<PeerId>) {
    && promoted <= r.nonVoters.Keys
    && forall p, q :: p in promoted && q in r.nonVoters && q !in promoted ==> r.nonVoters[q] <= r.nonVoters[p]
  }

  function Promote(r: Roster, promoted: set<PeerId>): Roster
    requires promoted <= r.nonVoters.Keys
  {
    Roster(r.voters + (map p | p in promoted :: r.nonVoters[p]), r.nonVoters - promoted)
  }

  /** Ties in the order of promotion are broken by the hash table's order, so a backfill is a relation. */
  ghost predicate Backfilled(r: Roster, r': Roster) {
    exists promoted :: PromotableIn(r, promoted) && r' == Promote(r, promoted)
  }

  ghost predicate PromotableIn(r: Roster, promoted: set<PeerId>) {
    MostCaughtUp(r, promoted) && |promoted| == PromoteCount(r)
  }

  ghost predicate VoteRecorded(r: Roster, follower: PeerId, index: Index, r': Roster) {
    if follower in r.voters then r' == r.(voters := r.voters[follower := index])
    else if follower in r.nonVoters then r' == r.(nonVoters := r.nonVoters[follower := index])
    else Backfilled(r.(nonVoters := r.nonVoters[follower := index]), r')
  }

  function Retain(r: Roster, active: set<PeerId>): Roster {
    Roster(map p | p in r.voters && p in active :: r.voters[p],
           map p | p in r.nonVoters && p in active :: r.nonVoters[p])
  }

  /** Events of one leadership; `active` are the peers with a live bond. */
  datatype Event =
    | Voted(follower: PeerId, index: Index)
    | Removed(follower: PeerId)
    | Purged(active: set<PeerId>)

  ghost predicate Step(leader: PeerId, r: Roster, e: Event, r': Roster) {
    match e
    case Voted(follower, index) => VoteRecorded(r, follower, index, r')
    case Removed(follower) => Backfilled(Retain(r, r.voters.Keys + r.nonVoters.Keys - {follower}), r')
    case Purged(active) => Backfilled(Retain(r, active + {leader}), r')
  }

  ghost predicate ValidRoster(leader: PeerId, r: Roster) {
    leader in r.voters && r.voters.Keys !! r.nonVoters.Keys
  }

  /** The voters that have acknowledged index `k`. */
  ghost function Acked(voters: map<PeerId, Index>, k: Index): set<PeerId> {
    set v | v in voters && k <= voters[v]
  }

  ghost predicate StrictMajority(part: set<PeerId>, whole: set<PeerId>) {
    part <= whole && |whole| < 2 * |part|
  }

  /** `k` is the largest index that a strict majority of the voters has acknowledged. */
  ghost predicate IsQuorumIndex(voters: map<PeerId, Index>, k: Index) {
    && StrictMajority(Acked(voters, k), voters.Keys)
    && forall j :: k < j ==> !StrictMajority(Acked(voters, j), voters.Keys)
  }

  lemma PromoteNobody(r: Roster)
    ensures Promote(r, {}) == r
  {
    assert Promote(r, {}).voters == r.voters && Promote(r, {}).nonVoters == r.nonVoters;
  }

  lemma PromoteSize(r: Roster, promoted: set<PeerId>)
    requires promoted <= r.nonVoters.Keys && r.voters.Keys !! r.nonVoters.Keys
    ensures |Promote(r, promoted).voters.Keys| == |r.voters.Keys| + |promoted|
  {
    assert Promote(r, promoted).voters.Keys == r.voters.Keys + promoted;
  }

  lemma PromoteCountEndsOdd(r: Roster)
    requires PromoteCount(r) > 0
    ensures (|r.voters.Keys| + PromoteCount(r)) % 2 == 1 && |r.voters.Keys| + PromoteCount(r) <= MAX_COMMITTEE_SIZE
  {
  }

  /** A backfill that promotes anyone ends with an odd number of voters, at most five. */
  lemma BackfillEndsOdd(leader: PeerId, r: Roster, r': Roster)
    requires ValidRoster(leader, r) && Backfilled(r, r') && r' != r
    ensures |r'.voters.Keys| % 2 == 1 && |r'.voters.Keys| <= 5
  {
    var promoted :| PromotableIn(r, promoted) && r' == Promote(r, promoted);
    if promoted == {} {
      PromoteNobody(r);
    } else {
      PromoteEndsOdd(r, promoted);
    }
  }

  /** The largest odd number up to five and up to `most`, but not below `n`. */
  function OddUpTo(n: nat, most: nat): nat {
    var capped := Min(5, most);
    Max(n, if capped % 2 == 1 then capped else capped - 1)
  }

  lemma PromoteCountReaches(n: nat, others: nat, r: Roster)
    requires 1 <= n == |r.voters.Keys| && others == |r.nonVoters.Keys|
    ensures n + PromoteCount(r) == OddUpTo(n, n + others)
  {
  }

  lemma PromoteReaches(r: Roster, promoted: set<PeerId>)
    requires promoted <= r.nonVoters.Keys && r.voters.Keys !! r.nonVoters.Keys
    requires r.voters.Keys != {} && |promoted| == PromoteCount(r)
    ensures |Promote(r, promoted).voters.Keys| == OddUpTo(|r.voters.Keys|, |r.voters.Keys| + |r.nonVoters.Keys|)
  {
    PromoteSize(r, promoted);
    PromoteCountReaches(|r.voters.Keys|, |r.nonVoters.Keys|, r);
  }

  /**
   * A backfill ends with the largest odd number of voters that neither five nor the roster's size exceeds, unless it
   * has more already; in particular two non-voters and fewer than five voters make it promote somebody.
   */
  lemma BackfillReaches(leader: PeerId, r: Roster, r': Roster)
    requires ValidRoster(leader, r) && Backfilled(r, r')
    ensures |r'.voters.Keys| == OddUpTo(|r.voters.Keys|, |r.voters.Keys| + |r.nonVoters.Keys|)
    ensures |r.voters.Keys| < 5 && |r.nonVoters.Keys| >= 2 ==> |r.voters.Keys| < |r'.voters.Keys|
  {
    var promoted :| PromotableIn(r, promoted) && r' == Promote(r, promoted);
    assert leader in r.voters.Keys;
    PromoteReaches(r, promoted);
    TwoMoreReachFurther(|r.voters.Keys|, |r.nonVoters.Keys|);
  }

  lemma TwoMoreReachFurther(n: nat, others: nat)
    ensures n < 5 && others >= 2 ==> n < OddUpTo(n, n + others)
  {
  }

  lemma PromoteEndsOdd(r: Roster, promoted: set<PeerId>)
    requires promoted <= r.nonVoters.Keys && r.voters.Keys !! r.nonVoters.Keys
    requires promoted != {} && |promoted| == PromoteCount(r)
    ensures |Promote(r, promoted).voters.Keys| % 2 == 1 && |Promote(r, promoted).voters.Keys| <= MAX_COMMITTEE_SIZE
  {
    PromoteSize(r, promoted);
    PromoteCountEndsOdd(r);
  }

  /** `p` is a member of the committee's roster credited with index `k`. */
  predicate Credited(r: Roster, p: PeerId, k: Index) {
    (p in r.voters && r.voters[p] == k) || (p in r.nonVoters && r.nonVoters[p] == k)
  }

  lemma PromoteKeepsRoster(leader: PeerId, r: Roster, promoted: set<PeerId>)
    requires ValidRoster(leader, r) && promoted <= r.nonVoters.Keys
    ensures ValidRoster(leader, Promote(r, promoted))
    ensures forall p, k :: Credited(Promote(r, promoted), p, k) ==> Credited(r, p, k)
  {
  }

  lemma BackfillKeepsRoster(leader: PeerId, r: Roster, r': Roster)
    requires ValidRoster(leader, r) && Backfilled(r, r')
    ensures ValidRoster(leader, r')
    ensures forall p, k :: Credited(r', p, k) ==> Credited(r, p, k)
  {
    var promoted :| PromotableIn(r, promoted) && r' == Promote(r, promoted);
    PromoteKeepsRoster(leader, r, promoted);
  }

  lemma RetainKeepsRoster(leader: PeerId, r: Roster, active: set<PeerId>)
    requires ValidRoster(leader, r) && leader in active
    ensures ValidRoster(leader, Retain(r, active))
    ensures forall p, k :: Credited(Retain(r, active), p, k) ==> Credited(r, p, k)
  {
  }

  lemma VoteKeepsRoster(leader: PeerId, r: Roster, follower: PeerId, index: Index, r': Roster)
    requires ValidRoster(leader, r) && VoteRecorded(r, follower, index, r')
    ensures ValidRoster(leader, r')
    ensures forall p, k :: Credited(r', p, k) ==> Credited(r, p, k) || (p == follower && k == index)
  {
    if follower !in r.voters && follower !in r.nonVoters {
      BackfillKeepsRoster(leader, r.(nonVoters := r.nonVoters[follower := index]), r');
    }
  }

  /** A step keeps the roster valid; a credit was there before, or is the vote just recorded. */
  lemma StepKeepsRoster(leader: PeerId, r: Roster, e: Event, r': Roster)
    requires ValidRoster(leader, r) && Step(leader, r, e, r')
    requires e.Removed? ==> e.follower != leader
    ensures ValidRoster(leader, r')
    ensures forall p, k :: Credited(r', p, k) ==> Credited(r, p, k) || e == Voted(p, k)
  {
    match e
    case Voted(follower, index) =>
      VoteKeepsRoster(leader, r, follower, index, r');
    case Removed(follower) =>
      var active := r.voters.Keys + r.nonVoters.Keys - {follower};
      RetainKeepsRoster(leader, r, active);
      BackfillKeepsRoster(leader, Retain(r, active), r');
    case Purged(active) =>
      RetainKeepsRoster(leader, r, active + {leader});
      BackfillKeepsRoster(leader, Retain(r, active + {leader}), r');
  }

  /** A leadership: it starts from the peers that granted their vote and takes any sequence of steps. */
  ghost predicate Leadership(leader: PeerId, granted: set<PeerId>, last: Index, events: seq<Event>, rosters: seq<Roster>) {
    && leader in granted
    && |rosters| == |events| + 1
    && rosters[0] == InitialRoster(granted, last)
    && (forall i :: 0 <= i < |events| ==> StepAt(leader, events, rosters, i))
  }

  ghost predicate StepAt(leader: PeerId, events: seq<Event>, rosters: seq<Roster>, i: nat)
    requires i < |events| < |rosters|
  {
    && Step(leader, rosters[i], events[i], rosters[i + 1])
    && (events[i].Removed? ==> events[i].follower != leader)
  }

  ghost predicate TrueCredit(granted: set<PeerId>, last: Index, events: seq<Event>, p: PeerId, k: Index) {
    (p in granted && k == last) || Voted(p, k) in events
  }

  /**
   * Throughout a leadership the leader votes, nobody is on both sides, and whatever index a member is
   * credited with is the leader's last index at the election or a vote the member really cast.
   */
  lemma {:induction false} CommitteeInvariant(leader: PeerId, granted: set<PeerId>, last: Index, events: seq<Event>, rosters: seq<Roster>, n: nat)
    requires Leadership(leader, granted, last, events, rosters) && n < |rosters|
    ensures ValidRoster(leader, rosters[n])
    ensures forall p, k :: Credited(rosters[n], p, k) ==> TrueCredit(granted, last, events[..n], p, k)
  {
    if n > 0 {
      CommitteeInvariant(leader, granted, last, events, rosters, n - 1);
      LeadershipStep(leader, granted, last, events, rosters, n - 1);
      assert events[..n] == events[..n - 1] + [events[n - 1]];
      StepKeepsTrueCredit(granted, last, events[..n - 1], rosters[n - 1], events[n - 1], rosters[n]);
    }
  }

  lemma LeadershipStep(leader: PeerId, granted: set<PeerId>, last: Index, events: seq<Event>, rosters: seq<Roster>, i: nat)
    requires Leadership(leader, granted, last, events, rosters) && i < |events|
    requires ValidRoster(leader, rosters[i])
    ensures ValidRoster(leader, rosters[i + 1])
    ensures forall p, k :: Credited(rosters[i + 1], p, k) ==> Credited(rosters[i], p, k) || events[i] == Voted(p, k)
  {
    assert StepAt(leader, events, rosters, i);
    StepKeepsRoster(leader, rosters[i], events[i], rosters[i + 1]);
  }

  lemma StepKeepsTrueCredit(granted: set<PeerId>, last: Index, past: seq<Event>, r: Roster, e: Event, r': Roster)
    requires forall p, k :: Credited(r, p, k) ==> TrueCredit(granted, last, past, p, k)
    requires forall p, k :: Credited(r', p, k) ==> Credited(r, p, k) || e == Voted(p, k)
    ensures forall p, k :: Credited(r', p, k) ==> TrueCredit(granted, last, past + [e], p, k)
  {
    forall p, k | Credited(r', p, k)
      ensures TrueCredit(granted, last, past + [e], p, k)
    {
      assert Credited(r, p, k) ==> TrueCredit(granted, last, past, p, k);
      assert e in past + [e];
    }
  }

  /** The index a member is credited with, whichever side it is on. */
  function CreditOf(r: Roster, p: PeerId): Option<Index> {
    if p in r.voters then Some(r.voters[p]) else if p in r.nonVoters then Some(r.nonVoters[p]) else None
  }

  /** One event's word on one peer. */
  function Updated(leader: PeerId, before: Option<Index>, e: Event, p: PeerId): Option<Index> {
    match e
    case Voted(follower, index) => if follower == p then Some(index) else before
    case Removed(follower) => if follower == p then None else before
    case Purged(active) => if p in active || p == leader then before else None
  }

  /** What the events alone say about one peer: its latest acknowledgement, unless it was removed or lost its bond since. */
  function Remembered(leader: PeerId, first: Option<Index>, events: seq<Event>, p: PeerId): Option<Index> {
    if events == [] then first
    else Updated(leader, Remembered(leader, first, events[..|events| - 1], p), events[|events| - 1], p)
  }

  lemma BackfillKeepsCredit(r: Roster, r': Roster, p: PeerId)
    requires Backfilled(r, r') && r.voters.Keys !! r.nonVoters.Keys
    ensures CreditOf(r', p) == CreditOf(r, p)
  {
  }

  lemma RetainKeepsCredit(r: Roster, active: set<PeerId>, p: PeerId)
    requires r.voters.Keys !! r.nonVoters.Keys
    ensures CreditOf(Retain(r, active), p) == if p in active then CreditOf(r, p) else None
    ensures Retain(r, active).voters.Keys !! Retain(r, active).nonVoters.Keys
  {
  }

  lemma RetainedCredit(r: Roster, active: set<PeerId>, r': Roster, p: PeerId)
    requires r.voters.Keys !! r.nonVoters.Keys && Backfilled(Retain(r, active), r')
    ensures CreditOf(r', p) == if p in active then CreditOf(r, p) else None
  {
    RetainKeepsCredit(r, active, p);
    BackfillKeepsCredit(Retain(r, active), r', p);
  }

  lemma NewcomerCredit(r: Roster, follower: PeerId, index: Index, p: PeerId)
    requires follower !in r.voters
    ensures CreditOf(r.(nonVoters := r.nonVoters[follower := index]), p) == if follower == p then Some(index) else CreditOf(r, p)
  {
  }

  lemma VoteMovesCredit(r: Roster, follower: PeerId, index: Index, r': Roster, p: PeerId)
    requires VoteRecorded(r, follower, index, r') && r.voters.Keys !! r.nonVoters.Keys
    ensures CreditOf(r', p) == if follower == p then Some(index) else CreditOf(r, p)
  {
    if follower !in r.voters {
      NewcomerCredit(r, follower, index, p);
      if follower !in r.nonVoters {
        BackfillKeepsCredit(r.(nonVoters := r.nonVoters[follower := index]), r', p);
      }
    }
  }

  lemma RemovalMovesCredit(r: Roster, follower: PeerId, r': Roster, p: PeerId)
    requires r.voters.Keys !! r.nonVoters.Keys && Backfilled(Retain(r, r.voters.Keys + r.nonVoters.Keys - {follower}), r')
    ensures CreditOf(r', p) == if follower == p then None else CreditOf(r, p)
  {
    var active := r.voters.Keys + r.nonVoters.Keys - {follower};
    RetainedCredit(r, active, r', p);
    assert p in active <==> CreditOf(r, p).Some? && p != follower;
  }

  lemma PurgeMovesCredit(leader: PeerId, r: Roster, active: set<PeerId>, r': Roster, p: PeerId)
    requires r.voters.Keys !! r.nonVoters.Keys && Backfilled(Retain(r, active + {leader}), r')
    ensures CreditOf(r', p) == if p in active || p == leader then CreditOf(r, p) else None
  {
    RetainedCredit(r, active + {leader}, r', p);
  }

  lemma StepMovesCredit(leader: PeerId, r: Roster, e: Event, r': Roster, p: PeerId)
    requires ValidRoster(leader, r) && Step(leader, r, e, r')
    ensures CreditOf(r', p) == Updated(leader, CreditOf(r, p), e, p)
  {
    match e
    case Voted(follower, index) => VoteMovesCredit(r, follower, index, r', p);
    case Removed(follower) => RemovalMovesCredit(r, follower, r', p);
    case Purged(active) => PurgeMovesCredit(leader, r, active, r', p);
  }

  /** Throughout a leadership, who is on the committee's roster and with what credit is exactly what its events say. */
  lemma {:induction false} CreditIsTheLatest(leader: PeerId, granted: set<PeerId>, last: Index, events: seq<Event>, rosters: seq<Roster>, n: nat, p: PeerId)
    requires Leadership(leader, granted, last, events, rosters) && n < |rosters|
    ensures CreditOf(rosters[n], p) == Remembered(leader, if p in granted then Some(last) else None, events[..n], p)
  {
    if n > 0 {
      CreditIsTheLatest(leader, granted, last, events, rosters, n - 1, p);
      CommitteeInvariant(leader, granted, last, events, rosters, n - 1);
      assert StepAt(leader, events, rosters, n - 1);
      assert events[..n][..n - 1] == events[..n - 1];
      StepMovesCredit(leader, rosters[n - 1], events[n - 1], rosters[n], p);
    }
  }

  function Progress(m: map<PeerId, Index>, v: PeerId): int {
    if v in m then m[v] else 0
  }

  /** Reading the quorum off the acknowledged indices in ascending order. */
  lemma QuorumFromSorted(voters: map<PeerId, Index>, ids: seq<PeerId>)
    requires Distinct(ids) && Elements(ids) == voters.Keys && |ids| == |voters.Keys| > 0
    requires SortedBy(ids, v => Progress(voters, v))
    ensures ids[|ids| - (|ids| / 2 + 1)] in voters
    ensures IsQuorumIndex(voters, voters[ids[|ids| - (|ids| / 2 + 1)]])
  {
    var m := |ids| - (|ids| / 2 + 1);
    assert forall i :: 0 <= i < |ids| ==> ids[i] in Elements(ids);
    var k := voters[ids[m]];
    AckedAbove(voters, ids, m);
    forall j | k < j
      ensures !StrictMajority(Acked(voters, j), voters.Keys)
    {
      AckedBelow(voters, ids, m, j);
    }
  }

  /** Everyone from position `m` on has acknowledged the index at position `m`. */
  lemma AckedAbove(voters: map<PeerId, Index>, ids: seq<PeerId>, m: nat)
    requires Distinct(ids) && Elements(ids) == voters.Keys && m < |ids|
    requires SortedBy(ids, v => Progress(voters, v))
    ensures ids[m] in voters && |ids| - m <= |Acked(voters, voters[ids[m]])|
  {
    assert ids[m] in Elements(ids);
    DistinctSize(ids[m..]);
    forall v | v in Elements(ids[m..])
      ensures v in Acked(voters, voters[ids[m]])
    {
      var i :| 0 <= i < |ids[m..]| && ids[m..][i] == v;
      assert ids[m + i] == v && v in Elements(ids);
      assert Progress(voters, ids[m]) <= Progress(voters, ids[m + i]);
    }
    SubsetSize(Elements(ids[m..]), Acked(voters, voters[ids[m]]));
  }

  /** Only those after position `m` can have acknowledged more than the index at position `m`. */
  lemma AckedBelow(voters: map<PeerId, Index>, ids: seq<PeerId>, m: nat, j: Index)
    requires Distinct(ids) && Elements(ids) == voters.Keys && m < |ids|
    requires SortedBy(ids, v => Progress(voters, v))
    requires Progress(voters, ids[m]) < j
    ensures |Acked(voters, j)| <= |ids| - m - 1
  {
    DistinctSize(ids[m + 1..]);
    forall v | v in Acked(voters, j)
      ensures v in Elements(ids[m + 1..])
    {
      assert v in Elements(ids);
      var i :| 0 <= i < |ids| && ids[i] == v;
      assert (v => Progress(voters, v))(ids[m]) < j;
      assert ids[m + 1..][i - m - 1] == v;
    }
    SubsetSize(Acked(voters, j), Elements(ids[m + 1..]));
  }

  lemma RetainOthers(r: Roster, follower: PeerId)
    ensures Retain(r, r.voters.Keys + r.nonVoters.Keys - {follower}) == Roster(r.voters - {follower}, r.nonVoters - {follower})
  {
    var kept := Retain(r, r.voters.Keys + r.nonVoters.Keys - {follower});
    assert kept.voters == r.voters - {follower};
    assert kept.nonVoters == r.nonVoters - {follower};
  }

  /** The committee kept by a leader; its maps are updated in place. */
  class Committee {
    var voters: map<PeerId, Index>
    var nonVoters: map<PeerId, Index>

    ghost function State(): Roster
      reads this
    {
      Roster(voters, nonVoters)
    }

    constructor (granted: set<PeerId>, last: Index)
      ensures State() == InitialRoster(granted, last)
    {
      voters := map p | p in granted :: last;
      nonVoters := map[];
    }

    method RecordVote(follower: PeerId, index: Index) returns (quorum: Index)
      requires voters != map[]
      modifies this
      ensures VoteRecorded(old(State()), follower, index, State())
      ensures IsQuorumIndex(voters, quorum)
    {
      if follower in voters {
        voters := voters[follower := index];
      } else if follower in nonVoters {
        nonVoters := nonVoters[follower := index];
      } else {
        nonVoters := nonVoters[follower := index];
        TryBackfillVoters();
      }
      quorum := HighestQuorumIndex();
    }

    method RemoveDeadVoters(leader: PeerId, bonds: set<PeerId>)
      modifies this
      ensures Step(leader, old(State()), Purged(bonds), State())
    {
      var active := bonds + {leader};
      voters := map p | p in voters && p in active :: voters[p];
      nonVoters := map p | p in nonVoters && p in active :: nonVoters[p];
      TryBackfillVoters();
    }

    method Remove(leader: PeerId, follower: PeerId)
      modifies this
      ensures Step(leader, old(State()), Removed(follower), State())
    {
      RetainOthers(State(), follower);
      voters := voters - {follower};
      nonVoters := nonVoters - {follower};
      TryBackfillVoters();
    }

    method HighestQuorumIndex() returns (quorum: Index)
      requires voters != map[]
      ensures IsQuorumIndex(voters, quorum)
    {
      var current := voters;
      var key := v => Progress(current, v);
      var keys := Enumerate(voters.Keys);
      var ids := SortBy(keys, key);
      SortKeepsDistinct(keys, key);
      QuorumFromSorted(voters, ids);
      var majority := |voters.Keys| / 2 + 1;
      quorum := voters[ids[|ids| - majority]];
    }

    method TryBackfillVoters()
      modifies this
      ensures Backfilled(old(State()), State())
    {
      var count := PromoteCount(Roster(voters, nonVoters));
      var promoted := MostAdvanced(nonVoters, count);
      PromoteAll(promoted);
      assert PromotableIn(old(State()), Elements(promoted));
    }

    method PromoteAll(promoted: seq<PeerId>)
      requires Distinct(promoted) && Elements(promoted) <= nonVoters.Keys
      modifies this
      ensures State() == Promote(old(State()), Elements(promoted))
    {
      ghost var before := State();
      PromoteNobody(before);
      assert Elements(promoted[..0]) == {};
      for i := 0 to |promoted|
        invariant Elements(promoted[..i]) <= before.nonVoters.Keys
        invariant State() == Promote(before, Elements(promoted[..i]))
      {
        assert promoted[i] in Elements(promoted) && promoted[i] !in Elements(promoted[..i]);
        PromoteOneMore(before, Elements(promoted[..i]), promoted[i]);
        assert Elements(promoted[..i + 1]) == Elements(promoted[..i]) + {promoted[i]};
        voters := voters[promoted[i] := nonVoters[promoted[i]]];
        nonVoters := nonVoters - {promoted[i]};
      }
      assert promoted[..|promoted|] == promoted;
    }
  }

  /** The `n` non-voters with the highest acknowledged index, ties in any order. */
  method MostAdvanced(nonVoters: map<PeerId, Index>, n: nat) returns (promoted: seq<PeerId>)
    requires n <= |nonVoters.Keys|
    ensures Distinct(promoted) && MostCaughtUp(Roster(map[], nonVoters), Elements(promoted)) && |Elements(promoted)| == n
  {
    var followers := Enumerate(nonVoters.Keys);
    var key := v => -Progress(nonVoters, v);
    var sorted := SortBy(followers, key);
    SortKeepsDistinct(followers, key);
    FirstAreMostCaughtUp(Roster(map[], nonVoters), sorted, n);
    promoted := sorted[..n];
  }

  lemma PromoteOneMore(r: Roster, promoted: set<PeerId>, p: PeerId)
    requires promoted <= r.nonVoters.Keys && p in r.nonVoters && p !in promoted
    ensures var r' := Promote(r, promoted);
            && p in r'.nonVoters
            && Promote(r, promoted + {p}) == Roster(r'.voters[p := r'.nonVoters[p]], r'.nonVoters - {p})
  {
    var r' := Promote(r, promoted);
    assert Promote(r, promoted + {p}).voters == r'.voters[p := r'.nonVoters[p]];
    assert Promote(r, promoted + {p}).nonVoters == r'.nonVoters - {p};
  }

  /** A prefix of the non-voters in descending order of progress leaves nobody more caught up behind. */
  lemma FirstAreMostCaughtUp(r: Roster, sorted: seq<PeerId>, n: nat)
    requires Distinct(sorted) && Elements(sorted) == r.nonVoters.Keys && n <= |sorted|
    requires SortedBy(sorted, v => -Progress(r.nonVoters, v))
    ensures MostCaughtUp(r, Elements(sorted[..n])) && |Elements(sorted[..n])| == n
  {
    var promoted := Elements(sorted[..n]);
    DistinctSize(sorted[..n]);
    assert forall x :: x in promoted ==> x in Elements(sorted);
    forall p, q | p in promoted && q in r.nonVoters && q !in promoted
      ensures r.nonVoters[q] <= r.nonVoters[p]
    {
      assert q in Elements(sorted);
      var i :| 0 <= i < n && sorted[i] == p;
      var j :| 0 <= j < |sorted| && sorted[j] == q;
      assert -Progress(r.nonVoters, sorted[i]) <= -Progress(r.nonVoters, sorted[j]);
    }
  }
}
