/**
 * The indices a leader promises to its clients. What matters is the log as it will be once the queue is
 * flushed: commands are promised the indices at its end, and every step but a failed flush only extends it.
 */
module IndexAssignment {
  import opened RaftTypes
  import opened FullLog
  import opened RaftProtocol

  /** The leader's log followed by its queue. */
  function Planned(n: Node): (r: Log)
    requires n.role.Leader?
    ensures |r| == PromisedIndex(n)
  {
    n.log + WithTerm(n.term, n.role.queue)
  }

  ghost predicate FailedFlush(e: Event) {
    e.Flush? && !e.sent
  }

  /** A leadership: a leader that stays leader of its term while anything happens to it. */
  ghost predicate Leadership(p: PeerId, nodes: seq<Node>, events: seq<Event>) {
    && |nodes| == |events| + 1
    && (forall i :: 0 <= i < |nodes| ==> nodes[i].role.Leader? && nodes[i].term == nodes[0].term)
    && (forall i :: 0 <= i < |events| ==> LedStep(p, nodes, events, i))
  }

  ghost predicate LedStep(p: PeerId, nodes: seq<Node>, events: seq<Event>, i: nat)
    requires i < |events| < |nodes|
  {
    CanStep(p, nodes[i], events[i], nodes[i + 1])
  }

  ghost predicate CanStep(p: PeerId, n: Node, e: Event, n': Node) {
    exists out :: NodeStep(p, n, e, n', out)
  }

  lemma WithTermConcat(t: Term, a: seq<Command>, b: seq<Command>)
    ensures WithTerm(t, a + b) == WithTerm(t, a) + WithTerm(t, b)
  {
  }

  /** A flush moves the queue into the log and leaves the plan as it was. */
  lemma FlushKeepsPlan(p: PeerId, n: Node, env: Env, n': Node, out: set<Packet>)
    requires n.role.Leader? && Flushes(p, n, true, env, n', out)
    ensures n'.role.Leader? && n'.term == n.term && Planned(n') == Planned(n)
  {
    assert n'.log == n.log + WithTerm(n.term, n.role.queue) && n'.role.queue == [];
  }

  lemma ReceiveKeepsPlan(p: PeerId, n: Node, src: PeerId, m: Message, env: Env, n': Node, out: set<Packet>)
    requires n.role.Leader? && n'.role.Leader? && n'.term == n.term && Receives(p, n, src, m, env, n', out)
    ensures Planned(n') == Planned(n)
  {
    assert n'.log == n.log && n'.role.queue == n.role.queue;
  }

  /** Exactly when a step keeps every promise: unless it is a failed flush, the plan is only extended. */
  lemma PlanExtendsExactly(p: PeerId, n: Node, e: Event, n': Node, out: set<Packet>)
    requires n.role.Leader? && n'.role.Leader? && n'.term == n.term && NodeStep(p, n, e, n', out)
    ensures Planned(n) <= Planned(n') <==> !FailedFlush(e)
    ensures !FailedFlush(e) ==> Planned(n') == Planned(n) + WithTerm(n.term, if e.Enqueue? then e.commands else [])
  {
    match e
    case Flush(_, sent, env) =>
      if sent {
        FlushKeepsPlan(p, n, env, n', out);
      }
    case Enqueue(_, commands) =>
      WithTermConcat(n.term, n.role.queue, commands);
    case Receive(_, src, m, env) => ReceiveKeepsPlan(p, n, src, m, env, n', out);
    case Timeout(_, _) =>
    case Win(_) =>
    case Heartbeat(_, _) =>
    case Prune(_, _) =>
    case Offer(_, _) =>
    case Install(_, _) =>
  }

  /** After a failed flush the same indices are promised again. */
  lemma FailedFlushPromisesAgain(p: PeerId, n: Node, env: Env, n': Node, out: set<Packet>)
    requires n.role.Leader? && n.role.queue != [] && Flushes(p, n, false, env, n', out)
    ensures n'.role.Leader? && PromisedIndex(n') < PromisedIndex(n)
  {
  }

  lemma {:induction false} PlanGrows(p: PeerId, nodes: seq<Node>, events: seq<Event>, i: nat, j: nat)
    requires Leadership(p, nodes, events) && i <= j < |nodes|
    requires forall k :: 0 <= k < |events| ==> !FailedFlush(events[k])
    ensures Planned(nodes[i]) <= Planned(nodes[j])
  {
    if i < j {
      PlanGrows(p, nodes, events, i, j - 1);
      assert LedStep(p, nodes, events, j - 1);
      var out :| NodeStep(p, nodes[j - 1], events[j - 1], nodes[j], out);
      PlanExtendsExactly(p, nodes[j - 1], events[j - 1], nodes[j], out);
    }
  }

  /** The indices promised by an enqueue: from just behind the plan on. */
  function FirstPromised(n: Node): Index
    requires n.role.Leader?
  {
    PromisedIndex(n) + 1
  }

  /**
   * Promises are kept: in a leadership without a failed flush, a command enqueued at step `i` as number `c`
   * of its batch is, whenever the log has grown that far, the entry at exactly the promised index.
   */
  lemma PromisesAreKept(p: PeerId, nodes: seq<Node>, events: seq<Event>, i: nat, j: nat, c: nat)
    requires Leadership(p, nodes, events) && i < j < |nodes|
    requires forall k :: 0 <= k < |events| ==> !FailedFlush(events[k])
    requires events[i].Enqueue? && c < |events[i].commands|
    ensures var index := FirstPromised(nodes[i]) + c;
            && index <= PromisedIndex(nodes[j])
            && (index <= |nodes[j].log| ==> nodes[j].log[index - 1] == Entry(nodes[0].term, events[i].commands[c]))
            && (nodes[j].role.queue == [] ==> index <= |nodes[j].log|)
  {
    assert LedStep(p, nodes, events, i);
    var out :| NodeStep(p, nodes[i], events[i], nodes[i + 1], out);
    PlanExtendsExactly(p, nodes[i], events[i], nodes[i + 1], out);
    PlanGrows(p, nodes, events, i + 1, j);
    var at := PromisedIndex(nodes[i]) + c;
    assert Planned(nodes[i + 1])[at] == Entry(nodes[0].term, events[i].commands[c]);
    assert Planned(nodes[j])[at] == Planned(nodes[i + 1])[at];
  }

  /**
   * The ranges handed out are disjoint and leave no gap: two enqueues get ranges in order, and with
   * nothing enqueued in between the second starts right behind the first.
   */
  lemma RangesAreContiguous(p: PeerId, nodes: seq<Node>, events: seq<Event>, i: nat, j: nat)
    requires Leadership(p, nodes, events) && i < j < |events|
    requires forall k :: 0 <= k < |events| ==> !FailedFlush(events[k])
    requires events[i].Enqueue? && events[j].Enqueue?
    ensures FirstPromised(nodes[i]) + |events[i].commands| <= FirstPromised(nodes[j])
    ensures (forall k :: i < k < j ==> !events[k].Enqueue?) ==>
              FirstPromised(nodes[i]) + |events[i].commands| == FirstPromised(nodes[j])
  {
    assert LedStep(p, nodes, events, i);
    var out :| NodeStep(p, nodes[i], events[i], nodes[i + 1], out);
    PlanExtendsExactly(p, nodes[i], events[i], nodes[i + 1], out);
    PlanGrows(p, nodes, events, i + 1, j);
    if forall k :: i < k < j ==> !events[k].Enqueue? {
      PlanStays(p, nodes, events, i + 1, j);
    }
  }

  lemma {:induction false} PlanStays(p: PeerId, nodes: seq<Node>, events: seq<Event>, i: nat, j: nat)
    requires Leadership(p, nodes, events) && i <= j < |nodes|
    requires forall k :: i <= k < j ==> !FailedFlush(events[k]) && !events[k].Enqueue?
    ensures Planned(nodes[i]) == Planned(nodes[j])
  {
    if i < j {
      PlanStays(p, nodes, events, i, j - 1);
      assert LedStep(p, nodes, events, j - 1);
      var out :| NodeStep(p, nodes[j - 1], events[j - 1], nodes[j], out);
      PlanExtendsExactly(p, nodes[j - 1], events[j - 1], nodes[j], out);
    }
  }
}
