/** The session object of a lagging follower; every method is a step, or a run of steps, of the session. */
module SnapshotSync {
  import opened RaftTypes
  import opened CatchUpBuffer
  import opened Sorting
  import opened SnapshotProtocol
  import opened SyncSession

  /** The events lead from `s` to `s'` through the states. */
  ghost predicate Trace<Item, C>(cfg: Config, s: Session<Item, C>, states: seq<Session<Item, C>>, events: seq<Event<Item, C>>, s': Session<Item, C>) {
    Steps(cfg, states, events) && states[0] == s && states[|events|] == s'
  }

  lemma TraceGrows<Item, C>(cfg: Config, s: Session<Item, C>, states: seq<Session<Item, C>>, events: seq<Event<Item, C>>, e: Event<Item, C>, s': Session<Item, C>)
    requires Steps(cfg, states, events) && states[0] == s && Step(cfg, states[|events|], e, s')
    ensures Trace(cfg, s, states + [s'], events + [e], s')
  {
    var states', events' := states + [s'], events + [e];
    forall i | 0 <= i < |events'|
      ensures StepAt(cfg, states', events', i)
    {
      if i < |events| {
        assert StepAt(cfg, states, events, i);
        assert states'[i + 1] == states[i + 1];
      }
    }
  }

  class SnapshotSyncSession<Item, C> {
    const leader: PeerId
    const batch: nat
    var anchor: Option<Cursor>
    var gap: Option<Range>
    var candidates: map<Cursor, Candidate>
    var buffered: seq<Buffered<C>>
    var available: set<PeerId>
    var inflight: map<PeerId, Range>
    var fetched: map<nat, Chunk<Item>>
    var accumulated: seq<Item>

    ghost function State(): Session<Item, C>
      reads this
    {
      Session(anchor, gap, candidates, buffered, available, inflight, fetched, accumulated)
    }

    ghost function Cfg(): Config {
      Config(leader, batch)
    }

    constructor (leader: PeerId, batch: nat, position: Cursor, entries: seq<Entry<C>>)
      ensures State() == Started(position, entries) && Cfg() == Config(leader, batch)
    {
      this.leader, this.batch := leader, batch;
      anchor, gap, candidates, buffered := None, None, map[], Numbered(position.index, entries);
      available, inflight, fetched, accumulated := {}, map[], map[], [];
    }

    /** The candidate with the highest usable index, found by looking at each in turn. */
    method BestCandidate() returns (best: Option<Cursor>)
      ensures best.Some? ==> Best(State(), best.value)
      ensures best.None? ==> forall c :: !Usable(State(), c)
    {
      best := None;
      var rest := candidates.Keys;
      while rest != {}
        invariant rest <= candidates.Keys
        invariant best.Some? ==> Usable(State(), best.value)
        invariant forall c :: c in candidates.Keys - rest && Usable(State(), c) ==> best.Some? && c.index <= best.value.index
        decreases rest
      {
        var c :| c in rest;
        rest := rest - {c};
        var usable := (buffered == [] || buffered[0].index <= c.index) && (anchor.None? || anchor.value.index < c.index);
        if usable && (best.None? || best.value.index < c.index) {
          best := Some(c);
        }
      }
    }

    /** Selects an anchor, or starts over at a higher one. */
    method TrySelectAnchor()
      modifies this`anchor, this`gap, this`available, this`inflight, this`fetched, this`accumulated
      ensures Selects(old(State()), State())
    {
      var best := BestCandidate();
      if best.Some? {
        var c := best.value;
        var peers := candidates[c].peers;
        if anchor.None? {
          available := available + peers;
        } else {
          available, inflight, fetched, accumulated := peers, map[], map[], [];
        }
        anchor, gap := Some(c), Some(Range(0, candidates[c].itemsCount));
        assert Best(old(State()), c) && State() == Anchored(old(State()), c);
      }
    }

    method OnSnapshotReady(peer: PeerId, offered: Cursor, itemsCount: nat)
      modifies this
      ensures Step(Cfg(), old(State()), Offered(peer, offered, itemsCount), State())
    {
      var known := if offered in candidates then candidates[offered] else Candidate(itemsCount, {});
      candidates := candidates[offered := known.(peers := known.peers + {peer})];
      if anchor == Some(offered) {
        available := available + {peer};
      }
      assert State() == Recorded(old(State()), peer, offered, itemsCount);
      TrySelectAnchor();
    }

    method OnFetchDataResponse(peer: PeerId, from: Cursor, offset: nat, items: seq<Item>)
      modifies this`inflight, this`fetched
      ensures Step(Cfg(), old(State()), Response(peer, from, offset, items), State())
    {
      if anchor == Some(from) {
        inflight := inflight - {peer};
        fetched := fetched[offset := Chunk(offset + |items|, items)];
      }
    }

    method OnTermination(peer: PeerId)
      modifies this`available, this`inflight, this`candidates
      ensures Step(Cfg(), old(State()), Gone(peer), State())
    {
      available, inflight := available - {peer}, inflight - {peer};
      candidates := map c | c in candidates :: candidates[c].(peers := candidates[c].peers - {peer});
    }

    method OnTimeouts(peers: set<PeerId>)
      modifies this`available, this`inflight
      ensures Step(Cfg(), old(State()), TimedOut(peers), State())
    {
      available, inflight := available - peers, inflight - peers;
    }

    method BufferEntries(position: Cursor, entries: seq<Entry<C>>)
      modifies this`buffered
      ensures Step(Cfg(), old(State()), Buffer(position, entries), State())
    {
      buffered := buffered + Numbered(position.index, entries);
    }

    /** Moves contiguous chunks from the fetched map into the accumulated snapshot, lowest first. */
    method DrainFetchedItems()
      modifies this`gap, this`fetched, this`accumulated
      ensures Step(Cfg(), old(State()), Drain, State())
    {
      if gap.None? || gap.value.end <= gap.value.start {
        return;
      }
      var cursor, end := gap.value.start, gap.value.end;
      while cursor in fetched && forall k :: k in fetched ==> cursor <= k
        invariant DrainAll(State().(gap := Some(Range(cursor, end)))) == DrainAll(old(State()))
        invariant gap == old(gap)
        decreases fetched.Keys
      {
        var chunk := fetched[cursor];
        assert DrainOne(State().(gap := Some(Range(cursor, end)))) ==
               State().(gap := Some(Range(chunk.end, end)), fetched := fetched - {cursor}, accumulated := accumulated + chunk.items);
        fetched, accumulated := fetched - {cursor}, accumulated + chunk.items;
        cursor := chunk.end;
      }
      gap := Some(Range(cursor, end));
    }

    /** The ranges in flight and fetched, sorted by start. */
    method TakenRanges() returns (taken: seq<Range>)
      ensures ListsTaken(State(), taken)
    {
      var flying := FlyingRanges(inflight);
      var held := HeldRanges(fetched);
      var ranges := flying + held;
      assert forall r :: r in ranges <==> Taken(State(), r);
      taken := SortBy(ranges, StartOf);
      SameMembers(ranges, taken);
    }

    /** The idle peers, the leader last. */
    method IdlePeersSorted() returns (idle: seq<PeerId>)
      ensures ListsIdle(State(), leader, idle)
    {
      var peers := Enumerate(available - inflight.Keys);
      var key := (p: PeerId) => if p == leader then 1 else 0;
      idle := SortBy(peers, key);
      SortKeepsDistinct(peers, key);
      forall i | 0 <= i < |idle| && idle[i] == leader
        ensures i == |idle| - 1
      {
        assert key(idle[i]) <= key(idle[|idle| - 1]);
      }
    }

    /** Requests the first free chunks of the gap from the idle peers, one chunk each. */
    method ScheduleFetches() returns (sent: map<PeerId, Range>, ghost taken: seq<Range>, ghost idle: seq<PeerId>)
      modifies this`inflight
      ensures Step(Cfg(), old(State()), Schedule(taken, idle), State())
      ensures inflight == old(inflight) + sent
    {
      var ranges := TakenRanges();
      var queue := IdlePeersSorted();
      taken, idle, sent := ranges, queue, map[];
      if gap.None? || gap.value.end <= gap.value.start || anchor.None? {
        return;
      }
      var cursor := Walk(ranges, gap.value.start);
      sent := AssignChunks(queue, cursor, gap.value.end, batch, ranges);
      inflight := inflight + sent;
    }

    /** One poll of an unfinished session is a run of steps; a finished one is left as it is. */
    method Poll(terminated: seq<PeerId>, late: set<PeerId>)
      returns (complete: bool, sent: map<PeerId, Range>, ghost states: seq<Session<Item, C>>, ghost events: seq<Event<Item, C>>)
      modifies this
      ensures complete == Complete(old(State())) && (complete ==> State() == old(State()))
      ensures Trace(Cfg(), old(State()), states, events, State())
    {
      sent, states, events := map[], [State()], [];
      complete := IsSyncComplete();
      if complete {
        return;
      }
      states, events := PollTerminations(terminated);
      TrySelectAnchor();
      TraceGrows(Cfg(), old(State()), states, events, Select, State());
      states, events := states + [State()], events + [Select];
      DrainFetchedItems();
      TraceGrows(Cfg(), old(State()), states, events, Drain, State());
      states, events := states + [State()], events + [Drain];
      OnTimeouts(late);
      TraceGrows(Cfg(), old(State()), states, events, TimedOut(late), State());
      states, events := states + [State()], events + [TimedOut(late)];
      ghost var taken, idle;
      sent, taken, idle := ScheduleFetches();
      TraceGrows(Cfg(), old(State()), states, events, Schedule(taken, idle), State());
      states, events := states + [State()], events + [Schedule(taken, idle)];
    }

    method PollTerminations(terminated: seq<PeerId>)
      returns (ghost states: seq<Session<Item, C>>, ghost events: seq<Event<Item, C>>)
      modifies this
      ensures Trace(Cfg(), old(State()), states, events, State())
    {
      states, events := [State()], [];
      for i := 0 to |terminated|
        invariant Trace(Cfg(), old(State()), states, events, State())
      {
        OnTermination(terminated[i]);
        TraceGrows(Cfg(), old(State()), states, events, Gone(terminated[i]), State());
        states, events := states + [State()], events + [Gone(terminated[i])];
      }
    }

    method IsSyncComplete() returns (complete: bool)
      ensures complete == Complete(State())
    {
      complete := anchor.Some? && gap.Some? && gap.value.end <= gap.value.start;
    }
  }

  /** Steps the cursor over every taken range that covers it, in order of their starts. */
  method Walk(taken: seq<Range>, start: nat) returns (cursor: nat)
    ensures cursor == Skip(taken, start)
  {
    cursor := start;
    for i := 0 to |taken|
      invariant Skip(taken[i..], cursor) == Skip(taken, start)
    {
      assert taken[i..][1..] == taken[i + 1..];
      if taken[i].start <= cursor < taken[i].end {
        cursor := taken[i].end;
      }
    }
  }

  /** Gives each peer in turn the next chunk from the cursor on, walking over taken ranges in between. */
  method AssignChunks(peers: seq<PeerId>, start: nat, end: nat, batch: nat, taken: seq<Range>) returns (sent: map<PeerId, Range>)
    ensures sent == Assignment(peers, start, end, batch, taken)
  {
    var queue := peers;
    var cursor: nat := start;
    sent := map[];
    ghost var target := Assignment(peers, start, end, batch, taken);
    assert target == sent + target;
    while cursor < end && queue != []
      invariant target == sent + Assignment(queue, cursor, end, batch, taken)
      decreases |queue|
    {
      var next := if cursor + batch <= end then cursor + batch else end;
      ghost var rest := Assignment(queue[1..], Skip(taken, next), end, batch, taken);
      assert sent + (map[queue[0] := Range(cursor, next)] + rest) == sent[queue[0] := Range(cursor, next)] + rest;
      sent := sent[queue[0] := Range(cursor, next)];
      queue := queue[1..];
      cursor := Walk(taken, next);
    }
  }

  method FlyingRanges(inflight: map<PeerId, Range>) returns (ranges: seq<Range>)
    ensures forall r :: r in ranges <==> exists p :: p in inflight && inflight[p] == r
  {
    ranges := [];
    var rest := inflight.Keys;
    while rest != {}
      invariant rest <= inflight.Keys
      invariant forall r :: r in ranges <==> exists p :: p in inflight && p !in rest && inflight[p] == r
      decreases rest
    {
      var p :| p in rest;
      ranges, rest := ranges + [inflight[p]], rest - {p};
    }
  }

  method HeldRanges<Item>(fetched: map<nat, Chunk<Item>>) returns (ranges: seq<Range>)
    ensures forall r :: r in ranges <==> r.start in fetched && fetched[r.start].end == r.end
  {
    ranges := [];
    var rest := fetched.Keys;
    while rest != {}
      invariant rest <= fetched.Keys
      invariant forall r :: r in ranges <==> r.start in fetched.Keys - rest && fetched[r.start].end == r.end
      decreases rest
    {
      var k :| k in rest;
      ranges, rest := ranges + [Range(k, fetched[k].end)], rest - {k};
    }
  }

  lemma SameMembers<T>(a: seq<T>, b: seq<T>)
    requires multiset(a) == multiset(b)
    ensures forall x :: x in a <==> x in b
  {
    assert forall x :: x in a <==> x in multiset(a);
    assert forall x :: x in b <==> x in multiset(b);
  }
}
