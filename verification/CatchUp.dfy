/**
 * Catching up by snapshot and replaying the log end in the same state: from the way providers label snapshots,
 * through the transfer, to every commit after the snapshot was installed.
 */
module CatchUp {
  import opened RaftTypes
  import opened FullLog
  import opened CatchUpBuffer
  import opened LogBatches
  import opened SharedState
  import opened SnapshotProtocol
  import opened SyncSession
  import opened SnapshotProvider
  import M = MapMachine
  import SnapshotSync

  type Command = M.Command
  type Item = M.Item
  type Data = M.Data
  type Log = seq<Entry<Command>>
  type Order = Data -> seq<Item>

  // ---------------------------------------------------------------- what providers serve

  /** The iteration order of a map is a fixed function of its contents that yields each entry once. */
  ghost predicate Enumeration(order: Order) {
    forall m {:trigger order(m)} :: M.Enumerates(order(m), m)
  }

  /** The snapshot an anchor names: the items of the state after replaying the log up to it. */
  ghost function Snapshot(log: Log, order: Order, anchor: Cursor): seq<Item> {
    if anchor.index <= |log| then order(M.StateOf(log[..anchor.index])) else []
  }

  ghost function Truth(log: Log, order: Order): Cursor -> seq<Item> {
    (anchor: Cursor) => Snapshot(log, order, anchor)
  }

  /** A provider that applied a prefix of the log in some batches of one term each, the last of which asked for a snapshot. */
  ghost predicate Provided(log: Log, order: Order, batches: seq<seq<Entry<Command>>>, p: Pending<Item>) {
    && batches != [] && Joined(batches) <= log
    && batches[|batches| - 1] != [] && AllOfTerm(batches[|batches| - 1], batches[|batches| - 1][0].term)
    && p.position == M.AnchorOf(batches) && p.snapshot == order(M.Applied(batches))
  }

  /** Some cut of the log into batches explains the snapshot. */
  ghost predicate Labelled(log: Log, order: Order, p: Pending<Item>) {
    exists batches :: Provided(log, order, batches, p)
  }

  /** An anchor is the position of an entry of the log. */
  ghost predicate InLog(log: Log, anchor: Cursor) {
    anchor.index <= |log| && anchor == CursorAt(log, anchor.index)
  }

  /** However the provider's log was cut into batches, it offers the snapshot its anchor names. */
  lemma LabelledIsTrue(log: Log, order: Order, p: Pending<Item>)
    requires Labelled(log, order, p)
    ensures p.snapshot == Truth(log, order)(p.position) && InLog(log, p.position)
  {
    var batches :| Provided(log, order, batches, p);
    M.LabelsNameStates(log, batches);
  }

  /** Each peer's work from its start on. */
  type Servers = map<PeerId, seq<Duty<Item>>>

  /** Everything a provider was handed came out of its own application of the log, in batches of its own. */
  ghost predicate Labels(log: Log, order: Order, duties: seq<Duty<Item>>) {
    forall d, i :: 0 <= d < |duties| && duties[d].Serve? && 0 <= i < |duties[d].pending| ==> Labelled(log, order, duties[d].pending[i])
  }

  ghost predicate LabelAll(log: Log, order: Order, servers: Servers) {
    forall q :: q in servers ==> Labels(log, order, servers[q])
  }

  /** Where a message comes from: offers and items from a provider's work, entries from the leader's log. */
  ghost predicate Sent(log: Log, servers: Servers, e: Event<Item, Command>) {
    match e
    case Offered(peer, anchor, itemsCount) => peer in servers && exists d :: Offers(servers[peer], d, anchor, itemsCount)
    case Response(peer, anchor, offset, items) => peer in servers && exists d :: Answered(servers[peer], d, anchor, offset, items)
    case Buffer(position, entries) =>
      position.index + |entries| <= |log| && entries == log[position.index..position.index + |entries|]
    case _ => true
  }

  lemma LabelsAreHonest(log: Log, order: Order, duties: seq<Duty<Item>>)
    requires Labels(log, order, duties)
    ensures HonestDuties(Truth(log, order), duties)
  {
    var truth := Truth(log, order);
    forall d | 0 <= d < |duties| && duties[d].Serve?
      ensures HonestPending(truth, duties[d].pending)
    {
      forall i | 0 <= i < |duties[d].pending|
        ensures duties[d].pending[i].snapshot == truth(duties[d].pending[i].position)
      {
        LabelledIsTrue(log, order, duties[d].pending[i]);
      }
    }
  }

  lemma OfferedIsInLog(log: Log, order: Order, duties: seq<Duty<Item>>, d: nat, anchor: Cursor, itemsCount: nat)
    requires Labels(log, order, duties) && Offers(duties, d, anchor, itemsCount)
    ensures InLog(log, anchor)
  {
    var duty := duties[d];
    var offers := OffersFor(duty.pending, duty.local, duty.expired);
    var i :| 0 <= i < |offers| && offers[i].anchor == anchor && offers[i].itemsCount == itemsCount;
    OfferedWasPending(duty.pending, duty.local, duty.expired, i);
    var j :| 0 <= j < |duty.pending| && duty.pending[j].position == anchor;
    LabelledIsTrue(log, order, duty.pending[j]);
  }

  /** What such peers send is honest, and what they offer is in the log. */
  lemma SentIsHonest(log: Log, order: Order, servers: Servers, e: Event<Item, Command>)
    requires LabelAll(log, order, servers) && Sent(log, servers, e)
    ensures HonestEvent(Truth(log, order), e) && (e.Offered? ==> InLog(log, e.anchor))
  {
    match e
    case Offered(peer, anchor, itemsCount) =>
      var d :| Offers(servers[peer], d, anchor, itemsCount);
      LabelsAreHonest(log, order, servers[peer]);
      ProvidersTellTheTruth(Truth(log, order), servers[peer], d, anchor, itemsCount, 0, []);
      OfferedIsInLog(log, order, servers[peer], d, anchor, itemsCount);
    case Response(peer, anchor, offset, items) =>
      var d :| Answered(servers[peer], d, anchor, offset, items);
      LabelsAreHonest(log, order, servers[peer]);
      ProvidersTellTheTruth(Truth(log, order), servers[peer], d, anchor, 0, offset, items);
    case _ =>
  }

  // ---------------------------------------------------------------- the buffered tail

  /** The buffer is consecutive and leaves no hole after the anchor. */
  ghost predicate TailReady<I, C>(s: Session<I, C>) {
    s.buffered != [] ==>
      && s.buffered[0].index > 0 && Adjoins(s.buffered, s.buffered[0].index - 1)
      && (s.anchor.Some? ==> s.buffered[0].index <= s.anchor.value.index + 1)
  }

  /** The leader's messages follow one another, and the first one buffered after an anchor was chosen connects to it. */
  predicate Connects<I, C>(s: Session<I, C>, e: Event<I, C>) {
    e.Buffer? && e.entries != [] ==>
      if s.buffered != [] then e.position.index == s.buffered[|s.buffered| - 1].index
      else s.anchor.Some? ==> e.position.index <= s.anchor.value.index
  }

  lemma ExtendKeepsTail<I, C>(s: Session<I, C>, position: Cursor, entries: seq<Entry<C>>)
    requires TailReady(s) && Connects(s, Buffer(position, entries))
    ensures TailReady(Extended(s, position, entries))
  {
    var added := Numbered(position.index, entries);
    assert forall i :: 0 <= i < |added| ==> added[i].index == position.index + 1 + i;
  }

  lemma SelectKeepsTail<I, C>(s: Session<I, C>, s': Session<I, C>)
    requires TailReady(s) && Selects(s, s')
    ensures TailReady(s')
  {
  }

  lemma StepKeepsTail<I, C>(cfg: Config, s: Session<I, C>, e: Event<I, C>, s': Session<I, C>)
    requires TailReady(s) && Connects(s, e) && SyncSession.Step(cfg, s, e, s')
    ensures TailReady(s')
  {
    match e
    case Offered(peer, anchor, itemsCount) => SelectKeepsTail(Recorded(s, peer, anchor, itemsCount), s');
    case Select => SelectKeepsTail(s, s');
    case Buffer(position, entries) => ExtendKeepsTail(s, position, entries);
    case Drain => DrainKeepsRest(s);
    case _ =>
  }

  /** In a run whose buffered messages connect, the tail always follows the anchor. */
  lemma {:induction false} TailStaysReady<I, C>(cfg: Config, states: seq<Session<I, C>>, events: seq<Event<I, C>>, n: nat)
    requires Steps(cfg, states, events) && n < |states| && TailReady(states[0])
    requires forall i :: 0 <= i < |events| ==> Connects(states[i], events[i])
    ensures TailReady(states[n])
  {
    if n > 0 {
      TailStaysReady(cfg, states, events, n - 1);
      assert StepAt(cfg, states, events, n - 1) && Connects(states[n - 1], events[n - 1]);
      StepKeepsTail(cfg, states[n - 1], events[n - 1], states[n]);
    }
  }

  /** The buffered entries are the log's own. */
  ghost predicate FromLog(buffered: seq<Buffered<Command>>, log: Log) {
    forall i :: 0 <= i < |buffered| ==> 0 < buffered[i].index <= |log| && log[buffered[i].index - 1] == buffered[i].entry
  }

  lemma NumberedFromLog(log: Log, position: Index, entries: Log)
    requires position + |entries| <= |log| && entries == log[position..position + |entries|]
    ensures FromLog(Numbered(position, entries), log)
  {
  }

  /** Every anchor the session knows is in the log, and so is every entry it buffers. */
  ghost predicate Grounded(log: Log, s: Session<Item, Command>) {
    && (forall c :: c in s.candidates ==> InLog(log, c))
    && (s.anchor.Some? ==> InLog(log, s.anchor.value))
    && FromLog(s.buffered, log)
  }

  lemma SelectStaysGrounded(log: Log, s: Session<Item, Command>, s': Session<Item, Command>)
    requires Grounded(log, s) && Selects(s, s')
    ensures Grounded(log, s')
  {
  }

  lemma StepStaysGrounded(log: Log, cfg: Config, s: Session<Item, Command>, e: Event<Item, Command>, s': Session<Item, Command>)
    requires Grounded(log, s) && SyncSession.Step(cfg, s, e, s')
    requires e.Offered? ==> InLog(log, e.anchor)
    requires e.Buffer? ==> e.position.index + |e.entries| <= |log| && e.entries == log[e.position.index..e.position.index + |e.entries|]
    ensures Grounded(log, s')
  {
    match e
    case Offered(peer, anchor, itemsCount) => SelectStaysGrounded(log, Recorded(s, peer, anchor, itemsCount), s');
    case Select => SelectStaysGrounded(log, s, s');
    case Buffer(position, entries) => NumberedFromLog(log, position.index, entries);
    case Drain => DrainKeepsRest(s);
    case _ =>
  }

  // ---------------------------------------------------------------- finishing the session

  /** What the follower has to go on with once the snapshot is installed. */
  datatype Follower = Follower(log: Log, committed: Index, machine: Data)

  /** `prefix` is the log the anchor stands for. */
  function CaughtUp(s: Session<Item, Command>, prefix: Log): Follower
    requires s.anchor.Some?
  {
    Follower(Installed(prefix, s.buffered), s.anchor.value.index, M.Appended(map[], s.accumulated))
  }

  /** What a follower of `log` goes on with. */
  function Resumed(s: Session<Item, Command>, log: Log): Follower
    requires s.anchor.Some?
  {
    CaughtUp(s, log[..Min(s.anchor.value.index, |log|)])
  }

  /** Every entry the machine has seen is the log up to the commit position. */
  ghost predicate InStep(shared: Shared<Data, Command>)
    reads shared, shared.store
  {
    && shared.Valid() && shared.committed.index <= |shared.store.full|
    && shared.applied == shared.store.full[..shared.committed.index]
  }

  ghost function View(shared: Shared<Data, Command>): Follower
    reads shared, shared.store
  {
    Follower(shared.store.full, shared.committed.index, shared.machine)
  }

  /** Installs the snapshot, restarts the log at the anchor and appends the buffered tail. */
  method FinalizeSync(session: SnapshotSync.SnapshotSyncSession<Item, Command>, shared: Shared<Data, Command>, ghost prefix: Log)
    returns (ok: bool)
    requires shared.store.Valid() && shared.step == M.Step && shared.initial == map[]
    requires Complete(session.State()) && Last(prefix) == session.anchor.value
    modifies shared, shared.store, session
    ensures session.anchor == old(session.anchor) && session.buffered == []
    ensures ok <==> Adjoins(Tail(old(session.buffered), session.anchor.value.index), session.anchor.value.index)
    ensures ok ==> shared.committed == session.anchor.value && View(shared) == CaughtUp(old(session.State()), prefix)
    ensures ok && M.Appended(map[], old(session.accumulated)) == M.StateOf(prefix) ==> InStep(shared)
  {
    var snapshot := M.Append(map[], session.accumulated);
    ok := shared.InstallAt(snapshot, session.anchor.value, session.buffered, prefix);
    session.accumulated, session.buffered := [], [];
    assert ok ==> shared.store.full[..|prefix|] == prefix;
  }

  // ---------------------------------------------------------------- everything after

  lemma TailContinues(log: Log, tail: seq<Buffered<Command>>, anchor: Index)
    requires anchor <= |log| && Adjoins(tail, anchor) && FromLog(tail, log)
    ensures log[..anchor] + Unnumbered(tail) <= log
  {
    if tail != [] {
      assert tail[|tail| - 1].index == anchor + |tail|;
    }
    forall i | 0 <= i < |tail|
      ensures log[anchor + i] == tail[i].entry
    {
      assert tail[i].index == anchor + 1 + i;
    }
  }

  /** With the log's own entries buffered and no hole, the tail adjoins the anchor and the log is a prefix of the whole. */
  lemma CaughtUpHoldsTheLog(s: Session<Item, Command>, log: Log)
    requires s.anchor.Some? && TailReady(s) && Grounded(log, s)
    ensures Resumed(s, log).log <= log
    ensures Adjoins(Tail(s.buffered, s.anchor.value.index), s.anchor.value.index)
  {
    var anchor := s.anchor.value.index;
    if s.buffered != [] {
      TailIsSuffix(s.buffered, s.buffered[0].index - 1, anchor);
      assert FromLog(Tail(s.buffered, anchor), log);
      TailContinues(log, Tail(s.buffered, anchor), anchor);
    }
  }

  /** Committing keeps a caught-up node in step with its log. */
  method CommitLater(shared: Shared<Data, Command>, index: Index)
    requires InStep(shared) && shared.step == M.Step && shared.initial == map[]
    modifies shared`machine, shared`committed, shared`applied
    ensures InStep(shared) && View(shared) == Did(old(View(shared)), Commit(index))
    ensures shared.machine == M.StateOf(shared.store.full[..shared.committed.index])
  {
    ghost var full, before := shared.store.full, shared.committed.index;
    var _ := shared.CommitUpTo(index);
    assert full[..before] + Newly(full, before, index) == full[..shared.committed.index];
  }

  datatype Later = Append(entries: Log) | Truncate(at: Index) | Commit(index: Index)

  /** What a caught-up follower does next; truncation reaches only what is not committed. */
  ghost function Did(f: Follower, op: Later): Follower {
    match op
    case Append(entries) => f.(log := f.log + entries)
    case Truncate(at) => if f.committed < at <= |f.log| then f.(log := f.log[..at - 1]) else f
    case Commit(index) =>
      var newly := Newly(f.log, f.committed, index);
      f.(committed := f.committed + |newly|, machine := Replay(M.Step, f.machine, newly))
  }

  ghost function DidAll(f: Follower, ops: seq<Later>): Follower {
    if ops == [] then f else Did(DidAll(f, ops[..|ops| - 1]), ops[|ops| - 1])
  }

  /** The machine is in the state of a node that applied the whole log up to the commit position. */
  ghost predicate Replayed(f: Follower) {
    f.committed <= |f.log| && f.machine == M.StateOf(f.log[..f.committed])
  }

  lemma DidKeepsReplayed(f: Follower, op: Later)
    requires Replayed(f)
    ensures Replayed(Did(f, op))
  {
    var f' := Did(f, op);
    match op
    case Append(entries) => assert f'.log[..f.committed] == f.log[..f.committed];
    case Truncate(at) => assert f'.log[..f.committed] == f.log[..f.committed];
    case Commit(index) =>
      var newly := Newly(f.log, f.committed, index);
      assert f'.log[..f'.committed] == f.log[..f.committed] + newly;
      ReplayConcat(M.Step, map[], f.log[..f.committed], newly);
  }

  lemma {:induction false} DidAllKeepsReplayed(f: Follower, ops: seq<Later>)
    requires Replayed(f)
    ensures Replayed(DidAll(f, ops))
  {
    if ops != [] {
      DidAllKeepsReplayed(f, ops[..|ops| - 1]);
      DidKeepsReplayed(DidAll(f, ops[..|ops| - 1]), ops[|ops| - 1]);
    }
  }

  /** The log grows only by entries of `log`. */
  ghost predicate GrowsBy(f: Follower, ops: seq<Later>, log: Log) {
    forall i :: 0 <= i < |ops| && ops[i].Append? ==> DidAll(f, ops[..i]).log + ops[i].entries <= log
  }

  lemma {:induction false} DidAllStaysInLog(f: Follower, ops: seq<Later>, log: Log)
    requires f.log <= log && GrowsBy(f, ops, log)
    ensures DidAll(f, ops).log <= log
  {
    if ops != [] {
      var n := |ops| - 1;
      forall i | 0 <= i < n && ops[..n][i].Append?
        ensures DidAll(f, ops[..n][..i]).log + ops[..n][i].entries <= log
      {
        assert ops[..n][..i] == ops[..i];
      }
      DidAllStaysInLog(f, ops[..n], log);
    }
  }

  /** A completed transfer of the anchor's snapshot rebuilds the state after the log up to the anchor. */
  lemma TransferRebuildsState(log: Log, order: Order, cfg: Config, states: seq<Session<Item, Command>>,
                              events: seq<Event<Item, Command>>, n: nat)
    requires Enumeration(order) && IsRun(cfg, states, events) && HonestEvents(Truth(log, order), events) && n < |states|
    requires Complete(states[n]) && states[n].anchor.value.index <= |log|
    ensures M.Appended(map[], states[n].accumulated) == M.StateOf(log[..states[n].anchor.value.index])
  {
    var truth, anchor := Truth(log, order), states[n].anchor.value;
    ReassemblySafety(truth, cfg, states, events, n);
    var state := M.StateOf(log[..anchor.index]);
    assert states[n].accumulated == order(state);
    M.EnumerationRebuilds(order(state), state);
  }

  /**
   * The snapshot is built as the chunks are drained: appending a drained chunk to it gives what appending everything
   * accumulated gives.
   */
  lemma DrainingAppends(s: Session<Item, Command>)
    requires s.gap.Some? && s.gap.value.start in s.fetched
    ensures M.Appended(map[], DrainOne(s).accumulated) == M.Appended(M.Appended(map[], s.accumulated), s.fetched[s.gap.value.start].items)
  {
    M.AppendInParts(map[], s.accumulated, s.fetched[s.gap.value.start].items);
  }

  /** A session that was started by a message of the leader and only hears from the leader and from providers. */
  ghost predicate HearsOnly(log: Log, order: Order, servers: Servers, cfg: Config, states: seq<Session<Item, Command>>,
                            events: seq<Event<Item, Command>>, position: Cursor, entries: Log)
  {
    && Enumeration(order) && LabelAll(log, order, servers) && IsRun(cfg, states, events)
    && states[0] == Started(position, entries) && Sent(log, servers, Buffer(position, entries))
    && (forall i :: 0 <= i < |events| ==> Sent(log, servers, events[i]))
  }

  /** And whose buffered messages connect. */
  ghost predicate Hears(log: Log, order: Order, servers: Servers, cfg: Config, states: seq<Session<Item, Command>>,
                        events: seq<Event<Item, Command>>, position: Cursor, entries: Log)
  {
    && HearsOnly(log, order, servers, cfg, states, events, position, entries)
    && (forall i :: 0 <= i < |events| ==> Connects(states[i], events[i]))
  }

  lemma {:induction false} SessionStaysGrounded(log: Log, order: Order, servers: Servers, cfg: Config, states: seq<Session<Item, Command>>,
                                                events: seq<Event<Item, Command>>, position: Cursor, entries: Log, n: nat)
    requires Hears(log, order, servers, cfg, states, events, position, entries) && n < |states|
    ensures Grounded(log, states[n])
  {
    if n == 0 {
      NumberedFromLog(log, position.index, entries);
    } else {
      SessionStaysGrounded(log, order, servers, cfg, states, events, position, entries, n - 1);
      assert StepAt(cfg, states, events, n - 1) && Sent(log, servers, events[n - 1]);
      SentIsHonest(log, order, servers, events[n - 1]);
      StepStaysGrounded(log, cfg, states[n - 1], events[n - 1], states[n]);
    }
  }

  lemma EventsAreHonest(log: Log, order: Order, servers: Servers, events: seq<Event<Item, Command>>)
    requires LabelAll(log, order, servers) && forall i :: 0 <= i < |events| ==> Sent(log, servers, events[i])
    ensures HonestEvents(Truth(log, order), events)
  {
    forall i | 0 <= i < |events|
      ensures HonestEvent(Truth(log, order), events[i])
    {
      assert Sent(log, servers, events[i]);
      SentIsHonest(log, order, servers, events[i]);
    }
  }

  /** A completed session ends at a position of the log, with the state there and a tail that follows it in the log. */
  lemma CatchUpReachesTheLog(log: Log, order: Order, servers: Servers, cfg: Config, states: seq<Session<Item, Command>>,
                             events: seq<Event<Item, Command>>, position: Cursor, entries: Log, n: nat)
    requires Hears(log, order, servers, cfg, states, events, position, entries) && n < |states| && Complete(states[n])
    ensures var s, anchor := states[n], states[n].anchor.value;
            && InLog(log, anchor) && Adjoins(Tail(s.buffered, anchor.index), anchor.index)
            && Resumed(s, log).log <= log && Replayed(Resumed(s, log))
  {
    SessionStaysGrounded(log, order, servers, cfg, states, events, position, entries, n);
    TailStaysReady(cfg, states, events, n);
    CaughtUpHoldsTheLog(states[n], log);
    EventsAreHonest(log, order, servers, events);
    TransferRebuildsState(log, order, cfg, states, events, n);
    var prefix := log[..states[n].anchor.value.index];
    assert CaughtUp(states[n], prefix).log[..|prefix|] == prefix;
  }

  /**
   * Catch-up equals replay. Let providers apply one log, each cut into batches in its own way, and serve the snapshots
   * they take on the way. A follower that hears only from them and from the leader, and whose session completes, ends
   * at a position of that log; the tail it buffered follows there; and after any later commits, with whatever appends
   * of the log's entries and truncations of uncommitted ones in between, its machine is in the state of a node that
   * applied the whole log up to the commit position.
   */
  lemma CatchUpEqualsReplay(log: Log, order: Order, servers: Servers, cfg: Config, states: seq<Session<Item, Command>>,
                            events: seq<Event<Item, Command>>, position: Cursor, entries: Log, n: nat, ops: seq<Later>)
    requires Hears(log, order, servers, cfg, states, events, position, entries) && n < |states| && Complete(states[n])
    requires GrowsBy(Resumed(states[n], log), ops, log)
    ensures InLog(log, states[n].anchor.value)
    ensures var f := DidAll(Resumed(states[n], log), ops);
            f.log <= log && f.committed <= |f.log| && f.machine == M.StateOf(log[..f.committed])
  {
    CatchUpReachesTheLog(log, order, servers, cfg, states, events, position, entries, n);
    var f := Resumed(states[n], log);
    DidAllKeepsReplayed(f, ops);
    DidAllStaysInLog(f, ops, log);
    var g := DidAll(f, ops);
    assert g.log[..g.committed] == log[..g.committed];
  }
}
