/**
 * The order book. Its specification is a pair of flat queues in price-time order; the book itself keeps
 * price levels in maps and matches with nested loops, and is proved to act on the flat queues.
 */
module OrderMatching {

  type Price = nat
  type Quantity = nat

  datatype Side = Bid | Ask {
    function Opposite(): Side {
      if Bid? then Ask else Bid
    }
  }

  datatype Order = Order(id: nat, side: Side, price: Price, quantity: Quantity, trader: string)
  datatype Fill = Fill(bidOrderId: nat, askOrderId: nat, price: Price, quantity: Quantity)
  datatype Resting = Resting(id: nat, quantity: Quantity, trader: string)
  datatype Command = PlaceOrder(order: Order) | CancelOrder(id: nat)

  /** A resting order together with its price level. */
  datatype Queued = Queued(price: Price, resting: Resting)

  /** For resting orders of `side`, price `p` comes before price `q` or is the same. */
  predicate Before(side: Side, p: Price, q: Price) {
    if side.Ask? then p <= q else p >= q
  }

  // ---------------------------------------------------------------- the flat specification

  /** An incoming order trades at a resting price no worse than its limit. */
  predicate Crosses(order: Order, price: Price) {
    Before(order.side.Opposite(), price, order.price)
  }

  function FillOf(order: Order, q: Queued, quantity: Quantity): Fill {
    if order.side.Bid? then Fill(order.id, q.resting.id, q.price, quantity)
    else Fill(q.resting.id, order.id, q.price, quantity)
  }

  datatype Outcome = Outcome(fills: seq<Fill>, queue: seq<Queued>, remaining: Quantity)

  function Smaller(a: nat, b: nat): nat {
    if a <= b then a else b
  }

  /** Consumes the opposite queue from the front. */
  function Match(order: Order, queue: seq<Queued>, remaining: Quantity): Outcome {
    if remaining == 0 || queue == [] || !Crosses(order, queue[0].price) then Outcome([], queue, remaining)
    else
      var head := queue[0];
      var quantity := Smaller(remaining, head.resting.quantity);
      var fill := FillOf(order, head, quantity);
      if quantity == head.resting.quantity then
        var rest := Match(order, queue[1..], remaining - quantity);
        rest.(fills := [fill] + rest.fills)
      else
        Outcome([fill], [Reduced(head, quantity)] + queue[1..], 0)
  }

  function Reduced(q: Queued, taken: Quantity): Queued
    requires taken <= q.resting.quantity
  {
    q.(resting := q.resting.(quantity := q.resting.quantity - taken))
  }

  /** A new resting order queues behind every order of an equal or better price. */
  function Enqueue(side: Side, queue: seq<Queued>, q: Queued): seq<Queued> {
    if queue != [] && Before(side, queue[0].price, q.price) then [queue[0]] + Enqueue(side, queue[1..], q)
    else [q] + queue
  }

  function Without(queue: seq<Queued>, id: nat): seq<Queued> {
    if queue == [] then []
    else if queue[0].resting.id == id then Without(queue[1..], id)
    else [queue[0]] + Without(queue[1..], id)
  }

  datatype Book = Book(bids: seq<Queued>, asks: seq<Queued>, fills: seq<Fill>)

  function SideOf(b: Book, side: Side): seq<Queued> {
    if side.Bid? then b.bids else b.asks
  }

  function WithSide(b: Book, side: Side, queue: seq<Queued>): Book {
    if side.Bid? then b.(bids := queue) else b.(asks := queue)
  }

  function Place(b: Book, order: Order): Book {
    var o := Match(order, SideOf(b, order.side.Opposite()), order.quantity);
    var matched := WithSide(b, order.side.Opposite(), o.queue).(fills := b.fills + o.fills);
    if o.remaining == 0 then matched
    else WithSide(matched, order.side,
                  Enqueue(order.side, SideOf(b, order.side), Queued(order.price, Resting(order.id, o.remaining, order.trader))))
  }

  function Cancel(b: Book, id: nat): Book {
    b.(bids := Without(b.bids, id), asks := Without(b.asks, id))
  }

  function Apply(b: Book, c: Command): Book {
    match c
    case PlaceOrder(order) => Place(b, order)
    case CancelOrder(id) => Cancel(b, id)
  }

  function ApplyAll(commands: seq<Command>): Book {
    if commands == [] then Book([], [], []) else Apply(ApplyAll(commands[..|commands| - 1]), commands[|commands| - 1])
  }

  // ---------------------------------------------------------------- what matching means

  function Filled(fills: seq<Fill>): Quantity {
    if fills == [] then 0 else fills[0].quantity + Filled(fills[1..])
  }

  function Total(queue: seq<Queued>): Quantity {
    if queue == [] then 0 else queue[0].resting.quantity + Total(queue[1..])
  }

  ghost predicate InOrder(side: Side, queue: seq<Queued>) {
    forall i, j :: 0 <= i <= j < |queue| ==> Before(side, queue[i].price, queue[j].price)
  }

  ghost predicate NoneEmpty(queue: seq<Queued>) {
    forall i :: 0 <= i < |queue| ==> queue[i].resting.quantity > 0
  }

  /** `left` is a suffix of `queue`, except that its head may have been reduced. */
  ghost predicate ConsumedFromFront(queue: seq<Queued>, left: seq<Queued>) {
    && |left| <= |queue|
    && var k := |queue| - |left|;
       left != [] ==> AtMostReduced(queue[k], left[0]) && left[1..] == queue[k + 1..]
  }

  predicate AtMostReduced(q: Queued, r: Queued) {
    r.resting.quantity <= q.resting.quantity && r == Reduced(q, q.resting.quantity - r.resting.quantity)
  }

  lemma {:induction false} MatchConserves(order: Order, queue: seq<Queued>, remaining: Quantity)
    ensures var o := Match(order, queue, remaining);
            Filled(o.fills) + o.remaining == remaining && Filled(o.fills) + Total(o.queue) == Total(queue)
  {
    if remaining == 0 || queue == [] || !Crosses(order, queue[0].price) {
    } else {
      var head := queue[0];
      var quantity := Smaller(remaining, head.resting.quantity);
      var fill := FillOf(order, head, quantity);
      if quantity == head.resting.quantity {
        var rest := Match(order, queue[1..], remaining - quantity);
        MatchConserves(order, queue[1..], remaining - quantity);
        assert ([fill] + rest.fills)[1..] == rest.fills;
      } else {
        assert [fill][1..] == [];
        assert ([Reduced(head, quantity)] + queue[1..])[1..] == queue[1..];
      }
    }
  }

  /** One fill: the incoming order on its own side, the resting order on the other, at the resting price, within the limit. */
  predicate FillsOne(order: Order, q: Queued, fill: Fill) {
    && fill.price == q.price && fill.quantity <= q.resting.quantity
    && match order.side
       case Bid => fill.bidOrderId == order.id && fill.askOrderId == q.resting.id && q.price <= order.price
       case Ask => fill.askOrderId == order.id && fill.bidOrderId == q.resting.id && q.price >= order.price
  }

  /** Fill `i` is against resting order `i`, and uses it up unless it is the last fill. */
  ghost predicate FillsInTurn(order: Order, queue: seq<Queued>, fills: seq<Fill>) {
    && |fills| <= |queue|
    && (forall i :: 0 <= i < |fills| ==> FillsOne(order, queue[i], fills[i]))
    && (forall i :: 0 <= i < |fills| - 1 ==> fills[i].quantity == queue[i].resting.quantity)
  }

  lemma {:induction false} MatchFillsInTurn(order: Order, queue: seq<Queued>, remaining: Quantity)
    ensures FillsInTurn(order, queue, Match(order, queue, remaining).fills)
  {
    if remaining > 0 && queue != [] && Crosses(order, queue[0].price) {
      var quantity := Smaller(remaining, queue[0].resting.quantity);
      var rest := queue[1..];
      if quantity == queue[0].resting.quantity {
        var o := Match(order, queue, remaining);
        MatchFillsInTurn(order, rest, remaining - quantity);
        assert forall i :: 1 <= i < |o.fills| ==> o.fills[i] == Match(order, rest, remaining - quantity).fills[i - 1] && queue[i] == rest[i - 1];
      }
    }
  }

  /** What is left is a suffix of the queue with at most its head reduced. */
  lemma {:induction false} MatchConsumesFromFront(order: Order, queue: seq<Queued>, remaining: Quantity)
    ensures ConsumedFromFront(queue, Match(order, queue, remaining).queue)
  {
    if remaining > 0 && queue != [] && Crosses(order, queue[0].price) {
      var quantity := Smaller(remaining, queue[0].resting.quantity);
      if quantity == queue[0].resting.quantity {
        MatchConsumesFromFront(order, queue[1..], remaining - quantity);
        ConsumedFurther(queue, Match(order, queue[1..], remaining - quantity).queue);
      }
    }
  }

  lemma ConsumedFurther(queue: seq<Queued>, left: seq<Queued>)
    requires queue != [] && ConsumedFromFront(queue[1..], left)
    ensures ConsumedFromFront(queue, left)
  {
    if left != [] {
      var k := |queue| - |left|;
      assert queue[1..][k - 1] == queue[k] && queue[1..][k..] == queue[k + 1..];
    }
  }

  /** An order is left with an unfilled remainder only when nothing more crosses its limit. */
  lemma {:induction false} MatchIsExhaustive(order: Order, queue: seq<Queued>, remaining: Quantity)
    ensures var o := Match(order, queue, remaining);
            o.remaining > 0 ==> o.queue == [] || !Crosses(order, o.queue[0].price)
  {
    if remaining > 0 && queue != [] && Crosses(order, queue[0].price) {
      var quantity := Smaller(remaining, queue[0].resting.quantity);
      if quantity == queue[0].resting.quantity {
        MatchIsExhaustive(order, queue[1..], remaining - quantity);
      }
    }
  }

  /** Matching a queue whose front part crosses throughout: first the front, then, if it is used up, the rest. */
  lemma {:induction false} MatchInParts(order: Order, front: seq<Queued>, back: seq<Queued>, remaining: Quantity)
    requires forall i :: 0 <= i < |front| ==> Crosses(order, front[i].price)
    ensures var o := Match(order, front, remaining);
            Match(order, front + back, remaining) ==
              if o.queue != [] then o.(queue := o.queue + back)
              else var o' := Match(order, back, o.remaining); o'.(fills := o.fills + o'.fills)
    decreases |front|
  {
    var whole := front + back;
    if front == [] {
      assert whole == back;
      assert [] + Match(order, back, remaining).fills == Match(order, back, remaining).fills;
    } else if remaining > 0 {
      var quantity := Smaller(remaining, front[0].resting.quantity);
      var fill := FillOf(order, front[0], quantity);
      assert whole[0] == front[0] && whole[1..] == front[1..] + back;
      if quantity == front[0].resting.quantity {
        MatchInParts(order, front[1..], back, remaining - quantity);
        var o := Match(order, front[1..], remaining - quantity);
        assert [fill] + (o.fills + Match(order, back, o.remaining).fills) == [fill] + o.fills + Match(order, back, o.remaining).fills;
      } else {
        assert [Reduced(front[0], quantity)] + (front[1..] + back) == [Reduced(front[0], quantity)] + front[1..] + back;
      }
    }
  }

  // ---------------------------------------------------------------- price levels, flattened

  type Levels = map<Price, seq<Resting>>

  ghost predicate NoEmptyLevel(levels: Levels) {
    forall p :: p in levels ==> levels[p] != []
  }

  /** `p` is one of the prices and comes before all of them. */
  predicate IsBest(side: Side, prices: set<Price>, p: Price) {
    p in prices && forall q :: q in prices ==> Before(side, p, q)
  }

  lemma {:induction false} SomePriceIsBest(side: Side, prices: set<Price>)
    requires prices != {}
    ensures exists p :: IsBest(side, prices, p)
    decreases prices
  {
    var p :| p in prices;
    var others := prices - {p};
    assert forall q :: q in prices ==> q == p || q in others;
    if others == {} {
      assert IsBest(side, prices, p);
    } else {
      SomePriceIsBest(side, others);
      var best :| IsBest(side, others, best);
      if Before(side, p, best) {
        assert IsBest(side, prices, p);
      } else {
        assert IsBest(side, prices, best);
      }
    }
  }

  /** The lowest ask or the highest bid. */
  function Best(side: Side, prices: set<Price>): (p: Price)
    requires prices != {}
    ensures IsBest(side, prices, p)
  {
    SomePriceIsBest(side, prices);
    var p :| IsBest(side, prices, p);
    p
  }

  function Tag(price: Price, level: seq<Resting>): seq<Queued> {
    seq(|level|, i requires 0 <= i < |level| => Queued(price, level[i]))
  }

  /** The levels as one queue: best price first, oldest first within a price. */
  ghost function Flat(side: Side, levels: Levels): seq<Queued>
    decreases levels.Keys
  {
    if levels.Keys == {} then []
    else
      var p := Best(side, levels.Keys);
      Tag(p, levels[p]) + Flat(side, levels - {p})
  }

  lemma FlatFromBest(side: Side, levels: Levels, p: Price)
    requires IsBest(side, levels.Keys, p)
    ensures Flat(side, levels) == Tag(p, levels[p]) + Flat(side, levels - {p})
  {
    assert Best(side, levels.Keys) == p;
  }

  lemma {:induction false} FlatHolds(side: Side, levels: Levels, i: nat)
    requires i < |Flat(side, levels)|
    ensures Flat(side, levels)[i].price in levels
    decreases levels.Keys
  {
    var p := Best(side, levels.Keys);
    if i >= |levels[p]| {
      FlatHolds(side, levels - {p}, i - |levels[p]|);
    }
  }

  /** A level replaced by another at the best price. */
  lemma FlatReplaced(side: Side, levels: Levels, p: Price, level: seq<Resting>)
    requires forall q :: q in levels ==> Before(side, p, q)
    ensures Flat(side, levels[p := level]) == Tag(p, level) + Flat(side, levels - {p})
  {
    var replaced := levels[p := level];
    FlatFromBest(side, replaced, p);
    assert replaced - {p} == levels - {p};
  }

  function Rested(levels: Levels, price: Price, r: Resting): Levels {
    levels[price := (if price in levels then levels[price] else []) + [r]]
  }

  lemma {:induction false} EnqueueSkips(side: Side, front: seq<Queued>, back: seq<Queued>, q: Queued)
    requires forall i :: 0 <= i < |front| ==> Before(side, front[i].price, q.price)
    ensures Enqueue(side, front + back, q) == front + Enqueue(side, back, q)
  {
    var whole := front + back;
    if front == [] {
      assert whole == back;
    } else {
      assert whole[0] == front[0] && whole[1..] == front[1..] + back;
      EnqueueSkips(side, front[1..], back, q);
    }
  }

  lemma EnqueueAtFront(side: Side, levels: Levels, q: Queued)
    requires forall p :: p in levels ==> !Before(side, p, q.price)
    ensures Enqueue(side, Flat(side, levels), q) == [q] + Flat(side, levels)
  {
    if Flat(side, levels) != [] {
      FlatHolds(side, levels, 0);
    }
  }

  lemma RestAtFront(side: Side, levels: Levels, price: Price, r: Resting)
    requires forall p :: p in levels ==> !Before(side, p, price)
    ensures Flat(side, Rested(levels, price, r)) == [Queued(price, r)] + Flat(side, levels)
  {
    FlatReplaced(side, levels, price, [r]);
    assert price !in levels by { assert Before(side, price, price); }
    assert [] + [r] == [r];
    assert levels - {price} == levels;
    assert Tag(price, [r]) == [Queued(price, r)];
  }

  lemma RestAtBest(side: Side, levels: Levels, price: Price, r: Resting)
    requires IsBest(side, levels.Keys, price)
    ensures Flat(side, Rested(levels, price, r)) == Tag(price, levels[price]) + ([Queued(price, r)] + Flat(side, levels - {price}))
  {
    FlatReplaced(side, levels, price, levels[price] + [r]);
    assert Tag(price, levels[price] + [r]) == Tag(price, levels[price]) + [Queued(price, r)];
  }

  lemma RestBehind(side: Side, levels: Levels, p: Price, price: Price, r: Resting)
    requires IsBest(side, levels.Keys, p) && Before(side, p, price) && p != price
    ensures Flat(side, Rested(levels, price, r)) == Tag(p, levels[p]) + Flat(side, Rested(levels - {p}, price, r))
  {
    var rested := Rested(levels, price, r);
    FlatFromBest(side, rested, p);
    assert rested - {p} == Rested(levels - {p}, price, r);
  }

  /** Pushing an order on its level queues it behind every order of an equal or better price. */
  lemma {:induction false} RestingQueues(side: Side, levels: Levels, price: Price, r: Resting)
    ensures Flat(side, Rested(levels, price, r)) == Enqueue(side, Flat(side, levels), Queued(price, r))
    decreases levels.Keys
  {
    var q := Queued(price, r);
    if levels.Keys == {} || !Before(side, Best(side, levels.Keys), price) {
      RestAtFront(side, levels, price, r);
      EnqueueAtFront(side, levels, q);
    } else {
      var p := Best(side, levels.Keys);
      var rest := levels - {p};
      EnqueueSkips(side, Tag(p, levels[p]), Flat(side, rest), q);
      if p == price {
        RestAtBest(side, levels, price, r);
        EnqueueAtFront(side, rest, q);
      } else {
        RestBehind(side, levels, p, price, r);
        RestingQueues(side, rest, price, r);
      }
    }
  }

  function Kept(level: seq<Resting>, id: nat): seq<Resting> {
    if level == [] then []
    else if level[0].id == id then Kept(level[1..], id)
    else [level[0]] + Kept(level[1..], id)
  }

  function Cancelled(levels: Levels, id: nat): Levels {
    map p | p in levels && Kept(levels[p], id) != [] :: Kept(levels[p], id)
  }

  lemma {:induction false} WithoutInParts(front: seq<Queued>, back: seq<Queued>, id: nat)
    ensures Without(front + back, id) == Without(front, id) + Without(back, id)
  {
    var whole := front + back;
    if front == [] {
      assert whole == back;
    } else {
      assert whole[0] == front[0] && whole[1..] == front[1..] + back;
      WithoutInParts(front[1..], back, id);
    }
  }

  lemma {:induction false} WithoutTagged(p: Price, level: seq<Resting>, id: nat)
    ensures Without(Tag(p, level), id) == Tag(p, Kept(level, id))
  {
    if level != [] {
      assert Tag(p, level)[1..] == Tag(p, level[1..]);
      WithoutTagged(p, level[1..], id);
    }
  }

  lemma CancelledAtBest(side: Side, levels: Levels, p: Price, id: nat)
    requires IsBest(side, levels.Keys, p)
    ensures Flat(side, Cancelled(levels, id)) == Tag(p, Kept(levels[p], id)) + Flat(side, Cancelled(levels - {p}, id))
  {
    var rest := levels - {p};
    if Kept(levels[p], id) == [] {
      assert Cancelled(levels, id) == Cancelled(rest, id);
    } else {
      FlatFromBest(side, Cancelled(levels, id), p);
      assert Cancelled(levels, id) - {p} == Cancelled(rest, id);
    }
  }

  /** Cancelling level by level removes exactly the orders of that id from the flat queue. */
  lemma {:induction false} CancellingRemoves(side: Side, levels: Levels, id: nat)
    ensures Flat(side, Cancelled(levels, id)) == Without(Flat(side, levels), id)
    decreases levels.Keys
  {
    if levels.Keys == {} {
      assert Cancelled(levels, id).Keys == {};
    } else {
      var p := Best(side, levels.Keys);
      WithoutInParts(Tag(p, levels[p]), Flat(side, levels - {p}), id);
      WithoutTagged(p, levels[p], id);
      CancellingRemoves(side, levels - {p}, id);
      CancelledAtBest(side, levels, p, id);
    }
  }

  // ---------------------------------------------------------------- the matching loops

  /** `target` is what has been done so far followed by matching the rest. */
  ghost predicate Continues(target: Outcome, fills: seq<Fill>, order: Order, queue: seq<Queued>, remaining: Quantity) {
    var rest := Match(order, queue, remaining);
    target == rest.(fills := fills + rest.fills)
  }

  lemma MatchHead(target: Outcome, fills: seq<Fill>, order: Order, price: Price, level: seq<Resting>, remaining: Quantity)
    requires level != [] && remaining > 0 && Crosses(order, price)
    requires Continues(target, fills, order, Tag(price, level), remaining)
    ensures var quantity := Smaller(remaining, level[0].quantity);
            var left := level[0].quantity - quantity;
            Continues(target, fills + [FillOf(order, Queued(price, level[0]), quantity)], order,
                      Tag(price, if left == 0 then level[1..] else level[0 := level[0].(quantity := left)]), remaining - quantity)
  {
    var queue := Tag(price, level);
    var quantity := Smaller(remaining, level[0].quantity);
    var fill := FillOf(order, queue[0], quantity);
    if quantity == level[0].quantity {
      assert queue[1..] == Tag(price, level[1..]);
      var rest := Match(order, queue[1..], remaining - quantity).fills;
      assert fills + ([fill] + rest) == fills + [fill] + rest;
    } else {
      var reduced := level[0 := level[0].(quantity := level[0].quantity - quantity)];
      assert [Reduced(queue[0], quantity)] + queue[1..] == Tag(price, reduced);
      assert fills + [fill] == fills + [fill] + [];
    }
  }

  /** The inner loop: matches against one price level until it or the order is used up. */
  method MatchLevel(order: Order, price: Price, level: seq<Resting>, quantity: Quantity)
    returns (fills: seq<Fill>, left: seq<Resting>, remaining: Quantity)
    requires Crosses(order, price)
    ensures Outcome(fills, Tag(price, left), remaining) == Match(order, Tag(price, level), quantity)
    ensures remaining == 0 || left == []
    ensures level != [] && quantity > 0 ==> remaining < quantity || |left| < |level|
  {
    fills, left, remaining := [], level, quantity;
    ghost var target := Match(order, Tag(price, level), quantity);
    assert [] + target.fills == target.fills;
    while remaining > 0 && left != []
      invariant Continues(target, fills, order, Tag(price, left), remaining)
      invariant remaining <= quantity && |left| <= |level|
      invariant remaining < quantity || |left| < |level| || (left == level && remaining == quantity)
      decreases |left|, remaining
    {
      MatchHead(target, fills, order, price, left, remaining);
      var fillQuantity := Smaller(remaining, left[0].quantity);
      fills := fills + [FillOf(order, Queued(price, left[0]), fillQuantity)];
      remaining := remaining - fillQuantity;
      var rest := left[0].quantity - fillQuantity;
      if rest == 0 {
        left := left[1..];
      } else {
        left := left[0 := left[0].(quantity := rest)];
      }
    }
    assert fills + [] == fills;
  }

  /** Takes the best level out of the queue: the rest follows only when the level is used up. */
  lemma MatchBestLevel(target: Outcome, fills: seq<Fill>, order: Order, levels: Levels, p: Price, remaining: Quantity, o: Outcome)
    requires IsBest(order.side.Opposite(), levels.Keys, p) && Crosses(order, p)
    requires Continues(target, fills, order, Flat(order.side.Opposite(), levels), remaining)
    requires o == Match(order, Tag(p, levels[p]), remaining)
    ensures o.queue == [] ==>
              Continues(target, fills + o.fills, order, Flat(order.side.Opposite(), levels - {p}), o.remaining)
    ensures o.queue != [] && o.remaining == 0 ==>
              Continues(target, fills + o.fills, order, o.queue + Flat(order.side.Opposite(), levels - {p}), 0)
  {
    var side := order.side.Opposite();
    var back := Flat(side, levels - {p});
    FlatFromBest(side, levels, p);
    MatchInParts(order, Tag(p, levels[p]), back, remaining);
    if o.queue == [] {
      var more := Match(order, back, o.remaining).fills;
      assert fills + (o.fills + more) == fills + o.fills + more;
    } else {
      assert fills + o.fills + [] == fills + o.fills;
    }
  }

  lemma MatchStops(side: Side, order: Order, levels: Levels, remaining: Quantity)
    requires side == order.side.Opposite() && NoEmptyLevel(levels)
    requires remaining == 0 || levels.Keys == {} || !Crosses(order, Best(side, levels.Keys))
    ensures Match(order, Flat(side, levels), remaining) == Outcome([], Flat(side, levels), remaining)
  {
    if levels.Keys != {} {
      var p := Best(side, levels.Keys);
      assert Tag(p, levels[p])[0].price == p;
    }
  }

  /** The outer loop, from the best level on while it crosses the limit. */
  method MatchLevels(order: Order, book: Levels) returns (fills: seq<Fill>, levels: Levels, remaining: Quantity)
    requires NoEmptyLevel(book)
    ensures NoEmptyLevel(levels)
    ensures var side := order.side.Opposite();
            Outcome(fills, Flat(side, levels), remaining) == Match(order, Flat(side, book), order.quantity)
  {
    var side := order.side.Opposite();
    fills, levels, remaining := [], book, order.quantity;
    ghost var target := Match(order, Flat(side, levels), remaining);
    assert [] + target.fills == target.fills;
    while remaining > 0 && levels.Keys != {} && Crosses(order, Best(side, levels.Keys))
      invariant NoEmptyLevel(levels)
      invariant Continues(target, fills, order, Flat(side, levels), remaining)
      decreases levels.Keys, remaining
    {
      var price := Best(side, levels.Keys);
      var made, left, unfilled := MatchLevel(order, price, levels[price], remaining);
      MatchBestLevel(target, fills, order, levels, price, remaining, Outcome(made, Tag(price, left), unfilled));
      fills, remaining := fills + made, unfilled;
      if left == [] {
        levels := levels - {price};
      } else {
        FlatReplaced(side, levels, price, left);
        levels := levels[price := left];
      }
    }
    MatchStops(side, order, levels, remaining);
    assert fills + [] == fills;
  }

  /** Filters every level, then drops the levels left empty. */
  method RetainOthers(book: Levels, id: nat) returns (levels: Levels)
    ensures levels == Cancelled(book, id) && NoEmptyLevel(levels)
  {
    levels := map[];
    var prices := book.Keys;
    while prices != {}
      invariant prices <= book.Keys && levels.Keys == book.Keys - prices
      invariant forall p :: p in levels ==> levels[p] == Kept(book[p], id)
      decreases prices
    {
      var p :| p in prices;
      levels := levels[p := Kept(book[p], id)];
      prices := prices - {p};
    }
    levels := map p | p in levels && levels[p] != [] :: levels[p];
  }

  class OrderBook {
    var bids: Levels
    var asks: Levels
    var fills: seq<Fill>

    ghost predicate Valid()
      reads this
    {
      NoEmptyLevel(bids) && NoEmptyLevel(asks)
    }

    ghost function State(): Book
      reads this
    {
      Book(Flat(Bid, bids), Flat(Ask, asks), fills)
    }

    constructor ()
      ensures Valid() && State() == ApplyAll([])
    {
      bids, asks, fills := map[], map[], [];
    }

    method MatchOrder(order: Order) returns (remaining: Quantity)
      requires Valid()
      modifies this
      ensures Valid()
      ensures var side := order.side.Opposite();
              var o := Match(order, SideOf(old(State()), side), order.quantity);
              remaining == o.remaining && State() == WithSide(old(State()), side, o.queue).(fills := old(fills) + o.fills)
      ensures if order.side.Bid? then bids == old(bids) else asks == old(asks)
      ensures old(fills) <= fills
      ensures FillsInTurn(order, SideOf(old(State()), order.side.Opposite()), fills[|old(fills)|..])
    {
      MatchFillsInTurn(order, SideOf(State(), order.side.Opposite()), order.quantity);
      var made;
      if order.side.Bid? {
        made, asks, remaining := MatchLevels(order, asks);
      } else {
        made, bids, remaining := MatchLevels(order, bids);
      }
      fills := fills + made;
    }

    method Place(order: Order)
      requires Valid()
      modifies this
      ensures Valid() && State() == Apply(old(State()), PlaceOrder(order))
    {
      var remaining := MatchOrder(order);
      if remaining > 0 {
        var resting := Resting(order.id, remaining, order.trader);
        if order.side.Bid? {
          RestingQueues(Bid, bids, order.price, resting);
          bids := Rested(bids, order.price, resting);
        } else {
          RestingQueues(Ask, asks, order.price, resting);
          asks := Rested(asks, order.price, resting);
        }
      }
    }

    method Cancel(id: nat)
      requires Valid()
      modifies this
      ensures Valid() && State() == Apply(old(State()), CancelOrder(id))
    {
      CancellingRemoves(Bid, bids, id);
      CancellingRemoves(Ask, asks, id);
      bids := RetainOthers(bids, id);
      asks := RetainOthers(asks, id);
    }

    method ApplyCommand(c: Command)
      requires Valid()
      modifies this
      ensures Valid() && State() == Apply(old(State()), c)
    {
      match c
      case PlaceOrder(order) => Place(order);
      case CancelOrder(id) => Cancel(id);
    }
  }

  // ---------------------------------------------------------------- every run of commands

  ghost predicate Uncrossed(bids: seq<Queued>, asks: seq<Queued>) {
    forall i, j :: 0 <= i < |bids| && 0 <= j < |asks| ==> bids[i].price < asks[j].price
  }

  ghost predicate Sound(b: Book) {
    && InOrder(Bid, b.bids) && InOrder(Ask, b.asks)
    && NoneEmpty(b.bids) && NoneEmpty(b.asks)
    && Uncrossed(b.bids, b.asks)
  }

  lemma {:induction false} MatchLeavesNoneEmpty(order: Order, queue: seq<Queued>, remaining: Quantity)
    requires NoneEmpty(queue)
    ensures NoneEmpty(Match(order, queue, remaining).queue)
  {
    if remaining > 0 && queue != [] && Crosses(order, queue[0].price) {
      var quantity := Smaller(remaining, queue[0].resting.quantity);
      if quantity == queue[0].resting.quantity {
        MatchLeavesNoneEmpty(order, queue[1..], remaining - quantity);
      }
    }
  }

  /** The same prices in the same order, from some point on. */
  ghost predicate PriceSuffix(queue: seq<Queued>, left: seq<Queued>) {
    |left| <= |queue| && forall i :: 0 <= i < |left| ==> left[i].price == queue[|queue| - |left| + i].price
  }

  lemma ConsumedKeepsPrices(queue: seq<Queued>, left: seq<Queued>)
    requires ConsumedFromFront(queue, left)
    ensures PriceSuffix(queue, left)
  {
    var k := |queue| - |left|;
    forall i | 1 <= i < |left|
      ensures left[i] == queue[k + i]
    {
      assert left[i] == left[1..][i - 1] == queue[k + 1..][i - 1];
    }
  }

  lemma MatchKeepsPrices(order: Order, queue: seq<Queued>, remaining: Quantity)
    ensures PriceSuffix(queue, Match(order, queue, remaining).queue)
  {
    MatchConsumesFromFront(order, queue, remaining);
    ConsumedKeepsPrices(queue, Match(order, queue, remaining).queue);
  }

  /** Where a new order goes: behind every equal or better price, ahead of the first worse one. */
  lemma {:induction false} EnqueueInserts(side: Side, queue: seq<Queued>, q: Queued) returns (k: nat)
    ensures k <= |queue| && Enqueue(side, queue, q) == queue[..k] + [q] + queue[k..]
    ensures forall i :: 0 <= i < k ==> Before(side, queue[i].price, q.price)
    ensures k < |queue| ==> !Before(side, queue[k].price, q.price)
  {
    k := 0;
    if queue != [] && Before(side, queue[0].price, q.price) {
      var k' := EnqueueInserts(side, queue[1..], q);
      k := k' + 1;
      assert queue[..k] == [queue[0]] + queue[1..][..k'];
    }
  }

  lemma EnqueueKeepsOrder(side: Side, queue: seq<Queued>, q: Queued)
    requires InOrder(side, queue)
    ensures InOrder(side, Enqueue(side, queue, q))
  {
    var k := EnqueueInserts(side, queue, q);
    var e := queue[..k] + [q] + queue[k..];
    assert forall i :: 0 <= i < k ==> e[i] == queue[i];
    assert forall i :: k < i < |e| ==> e[i] == queue[i - 1];
  }

  lemma EnqueueHolds(side: Side, queue: seq<Queued>, q: Queued, i: nat)
    requires i < |Enqueue(side, queue, q)|
    ensures Enqueue(side, queue, q)[i] == q || exists j :: 0 <= j < |queue| && Enqueue(side, queue, q)[i] == queue[j]
  {
    var k := EnqueueInserts(side, queue, q);
    assert i < k ==> Enqueue(side, queue, q)[i] == queue[i];
    assert i > k ==> Enqueue(side, queue, q)[i] == queue[i - 1];
  }

  lemma {:induction false} WithoutHolds(queue: seq<Queued>, id: nat, i: nat)
    requires i < |Without(queue, id)|
    ensures exists j :: 0 <= j < |queue| && Without(queue, id)[i] == queue[j]
  {
    if queue[0].resting.id == id {
      WithoutHolds(queue[1..], id, i);
      var j :| 0 <= j < |queue[1..]| && Without(queue[1..], id)[i] == queue[1..][j];
      assert queue[j + 1] == Without(queue, id)[i];
    } else if i > 0 {
      WithoutHolds(queue[1..], id, i - 1);
      var j :| 0 <= j < |queue[1..]| && Without(queue[1..], id)[i - 1] == queue[1..][j];
      assert queue[j + 1] == Without(queue, id)[i];
    }
  }

  /** Exactly the orders of other ids are kept. */
  lemma {:induction false} WithoutKeepsOthers(queue: seq<Queued>, id: nat, q: Queued)
    ensures q in Without(queue, id) <==> q in queue && q.resting.id != id
  {
    if queue != [] {
      WithoutKeepsOthers(queue[1..], id, q);
      assert q in queue <==> q == queue[0] || q in queue[1..];
    }
  }

  lemma {:induction false} WithoutKeepsOrder(side: Side, queue: seq<Queued>, id: nat)
    requires InOrder(side, queue)
    ensures InOrder(side, Without(queue, id))
  {
    if queue != [] {
      WithoutKeepsOrder(side, queue[1..], id);
      if queue[0].resting.id != id {
        forall i | 0 <= i < |Without(queue[1..], id)|
          ensures Before(side, queue[0].price, Without(queue[1..], id)[i].price)
        {
          WithoutHolds(queue[1..], id, i);
        }
      }
    }
  }

  lemma CancelKeepsSound(b: Book, id: nat)
    requires Sound(b)
    ensures Sound(Cancel(b, id))
  {
    WithoutKeepsOrder(Bid, b.bids, id);
    WithoutKeepsOrder(Ask, b.asks, id);
    forall i | 0 <= i < |Without(b.bids, id)|
      ensures exists k :: 0 <= k < |b.bids| && Without(b.bids, id)[i] == b.bids[k]
    {
      WithoutHolds(b.bids, id, i);
    }
    forall i | 0 <= i < |Without(b.asks, id)|
      ensures exists k :: 0 <= k < |b.asks| && Without(b.asks, id)[i] == b.asks[k]
    {
      WithoutHolds(b.asks, id, i);
    }
  }

  /** One side of the book against the other. */
  ghost predicate Apart(side: Side, own: seq<Queued>, other: seq<Queued>) {
    if side.Bid? then Uncrossed(own, other) else Uncrossed(other, own)
  }

  lemma MatchedSideIsSound(order: Order, own: seq<Queued>, other: seq<Queued>)
    requires InOrder(order.side.Opposite(), other) && NoneEmpty(other) && Apart(order.side, own, other)
    ensures var o := Match(order, other, order.quantity);
            && InOrder(order.side.Opposite(), o.queue) && NoneEmpty(o.queue) && Apart(order.side, own, o.queue)
            && (o.remaining > 0 ==> forall i :: 0 <= i < |o.queue| ==> !Crosses(order, o.queue[i].price))
  {
    MatchKeepsPrices(order, other, order.quantity);
    MatchLeavesNoneEmpty(order, other, order.quantity);
    MatchIsExhaustive(order, other, order.quantity);
  }

  lemma RestedSideIsSound(order: Order, own: seq<Queued>, other: seq<Queued>, q: Queued)
    requires InOrder(order.side, own) && NoneEmpty(own) && Apart(order.side, own, other)
    requires q.price == order.price && q.resting.quantity > 0
    requires forall i :: 0 <= i < |other| ==> !Crosses(order, other[i].price)
    ensures var e := Enqueue(order.side, own, q);
            InOrder(order.side, e) && NoneEmpty(e) && Apart(order.side, e, other)
  {
    var e := Enqueue(order.side, own, q);
    EnqueueKeepsOrder(order.side, own, q);
    forall i | 0 <= i < |e|
      ensures e[i] == q || exists j :: 0 <= j < |own| && e[i] == own[j]
    {
      EnqueueHolds(order.side, own, q, i);
    }
  }

  lemma PlaceKeepsSound(b: Book, order: Order)
    requires Sound(b)
    ensures Sound(Place(b, order))
  {
    var own, other := SideOf(b, order.side), SideOf(b, order.side.Opposite());
    MatchedSideIsSound(order, own, other);
    var o := Match(order, other, order.quantity);
    if o.remaining > 0 {
      RestedSideIsSound(order, own, o.queue, Queued(order.price, Resting(order.id, o.remaining, order.trader)));
    }
  }

  /** After any commands: price-time order, no zero-quantity order and no crossed prices. */
  lemma {:induction false} BookStaysSound(commands: seq<Command>)
    ensures Sound(ApplyAll(commands))
  {
    if commands != [] {
      var n := |commands| - 1;
      BookStaysSound(commands[..n]);
      match commands[n]
      case PlaceOrder(order) => PlaceKeepsSound(ApplyAll(commands[..n]), order);
      case CancelOrder(id) => CancelKeepsSound(ApplyAll(commands[..n]), id);
    }
  }

  // ---------------------------------------------------------------- where fills come from

  /** The resting order `q` is what is left of the order placed by command `i`. */
  predicate LeftOf(commands: seq<Command>, i: nat, side: Side, q: Queued) {
    && i < |commands| && commands[i].PlaceOrder?
    && var o := commands[i].order;
       o.side == side && o.price == q.price && o.id == q.resting.id && o.trader == q.resting.trader && q.resting.quantity <= o.quantity
  }

  ghost predicate LeftOfSome(commands: seq<Command>, n: nat, side: Side, q: Queued) {
    exists i :: 0 <= i < n && LeftOf(commands, i, side, q)
  }

  /** All of `queue` was placed on `side` by the first `n` commands. */
  ghost predicate PlacedBy(commands: seq<Command>, n: nat, side: Side, queue: seq<Queued>) {
    forall k :: 0 <= k < |queue| ==> LeftOfSome(commands, n, side, queue[k])
  }

  /**
   * The fill is between a bid and an ask, both placed, the one by command `first` and the other by the later command
   * `second`; it is at the price of the one placed first, within both limits, and for no more than either quantity.
   */
  predicate Pairs(commands: seq<Command>, first: nat, second: nat, fill: Fill) {
    && first < second < |commands| && commands[first].PlaceOrder? && commands[second].PlaceOrder?
    && var resting, incoming := commands[first].order, commands[second].order;
    && fill.price == resting.price && 0 < fill.quantity <= resting.quantity && fill.quantity <= incoming.quantity
    && if resting.side.Bid?
       then incoming.side.Ask? && fill.bidOrderId == resting.id && fill.askOrderId == incoming.id && incoming.price <= fill.price
       else incoming.side.Bid? && fill.askOrderId == resting.id && fill.bidOrderId == incoming.id && fill.price <= incoming.price
  }

  ghost predicate Paired(commands: seq<Command>, n: nat, fill: Fill) {
    exists first, second :: 0 <= first < second < n && Pairs(commands, first, second, fill)
  }

  ghost predicate Accounted(commands: seq<Command>, n: nat, b: Book) {
    && PlacedBy(commands, n, Bid, b.bids) && PlacedBy(commands, n, Ask, b.asks)
    && forall k :: 0 <= k < |b.fills| ==> Paired(commands, n, b.fills[k])
  }

  lemma MatchKeepsPlaced(commands: seq<Command>, n: nat, order: Order, queue: seq<Queued>, remaining: Quantity)
    requires PlacedBy(commands, n, order.side.Opposite(), queue)
    ensures PlacedBy(commands, n + 1, order.side.Opposite(), Match(order, queue, remaining).queue)
  {
    var left, side := Match(order, queue, remaining).queue, order.side.Opposite();
    MatchConsumesFromFront(order, queue, remaining);
    forall k | 0 <= k < |left|
      ensures LeftOfSome(commands, n + 1, side, left[k])
    {
      var from := |queue| - |left|;
      assert k > 0 ==> left[k] == left[1..][k - 1] == queue[from + 1..][k - 1];
      var i :| 0 <= i < n && LeftOf(commands, i, side, queue[from + k]);
      assert LeftOf(commands, i, side, left[k]);
    }
  }

  lemma EnqueueKeepsPlaced(commands: seq<Command>, n: nat, side: Side, queue: seq<Queued>, q: Queued)
    requires PlacedBy(commands, n, side, queue) && LeftOf(commands, n, side, q)
    ensures PlacedBy(commands, n + 1, side, Enqueue(side, queue, q))
  {
    var after := Enqueue(side, queue, q);
    forall k | 0 <= k < |after|
      ensures LeftOfSome(commands, n + 1, side, after[k])
    {
      EnqueueHolds(side, queue, q, k);
    }
  }

  lemma WithoutKeepsPlaced(commands: seq<Command>, n: nat, side: Side, queue: seq<Queued>, id: nat)
    requires PlacedBy(commands, n, side, queue)
    ensures PlacedBy(commands, n + 1, side, Without(queue, id))
  {
    var after := Without(queue, id);
    forall k | 0 <= k < |after|
      ensures LeftOfSome(commands, n + 1, side, after[k])
    {
      WithoutHolds(queue, id, k);
    }
  }

  lemma {:induction false} FillsArePositive(order: Order, queue: seq<Queued>, remaining: Quantity, k: nat)
    requires NoneEmpty(queue) && k < |Match(order, queue, remaining).fills|
    ensures 0 < Match(order, queue, remaining).fills[k].quantity <= remaining
  {
    var quantity := Smaller(remaining, queue[0].resting.quantity);
    if k > 0 {
      FillsArePositive(order, queue[1..], remaining - quantity, k - 1);
    }
  }

  lemma NewFillsPair(commands: seq<Command>, n: nat, queue: seq<Queued>)
    requires n < |commands| && commands[n].PlaceOrder? && NoneEmpty(queue)
    requires PlacedBy(commands, n, commands[n].order.side.Opposite(), queue)
    ensures var fills := Match(commands[n].order, queue, commands[n].order.quantity).fills;
            forall k :: 0 <= k < |fills| ==> Paired(commands, n + 1, fills[k])
  {
    var order := commands[n].order;
    var fills := Match(order, queue, order.quantity).fills;
    MatchFillsInTurn(order, queue, order.quantity);
    forall k | 0 <= k < |fills|
      ensures Paired(commands, n + 1, fills[k])
    {
      FillsArePositive(order, queue, order.quantity, k);
      assert FillsOne(order, queue[k], fills[k]);
      var i :| 0 <= i < n && LeftOf(commands, i, order.side.Opposite(), queue[k]);
      assert Pairs(commands, i, n, fills[k]);
    }
  }

  lemma RemainderIsSmaller(order: Order, queue: seq<Queued>)
    ensures Match(order, queue, order.quantity).remaining <= order.quantity
  {
    MatchConserves(order, queue, order.quantity);
  }

  lemma PlaceIsAccounted(commands: seq<Command>, n: nat, b: Book)
    requires n < |commands| && commands[n].PlaceOrder? && Accounted(commands, n, b) && Sound(b)
    ensures Accounted(commands, n + 1, Place(b, commands[n].order))
  {
    var order := commands[n].order;
    var own, other := SideOf(b, order.side), SideOf(b, order.side.Opposite());
    var o := Match(order, other, order.quantity);
    MatchKeepsPlaced(commands, n, order, other, order.quantity);
    NewFillsPair(commands, n, other);
    RemainderIsSmaller(order, other);
    EnqueueKeepsPlaced(commands, n, order.side, own, Queued(order.price, Resting(order.id, o.remaining, order.trader)));
  }

  lemma {:induction false} AccountedUpTo(commands: seq<Command>, n: nat)
    requires n <= |commands|
    ensures Accounted(commands, n, ApplyAll(commands[..n]))
  {
    if n > 0 {
      var before := commands[..n - 1];
      assert commands[..n][..n - 1] == before;
      AccountedUpTo(commands, n - 1);
      BookStaysSound(before);
      match commands[n - 1]
      case PlaceOrder(order) => PlaceIsAccounted(commands, n - 1, ApplyAll(before));
      case CancelOrder(id) =>
        WithoutKeepsPlaced(commands, n - 1, Bid, ApplyAll(before).bids, id);
        WithoutKeepsPlaced(commands, n - 1, Ask, ApplyAll(before).asks, id);
    }
  }

  /**
   * Every fill of every run pairs a placed bid and a placed ask, at the price of whichever was placed first and within
   * both limits.
   */
  lemma FillsPairOrders(commands: seq<Command>, k: nat)
    requires k < |ApplyAll(commands).fills|
    ensures exists first, second :: Pairs(commands, first, second, ApplyAll(commands).fills[k])
  {
    assert commands[..|commands|] == commands;
    AccountedUpTo(commands, |commands|);
    assert Paired(commands, |commands|, ApplyAll(commands).fills[k]);
  }

  // ---------------------------------------------------------------- conservation

  /** What was ever placed on a side. */
  function PlacedOn(side: Side, commands: seq<Command>): Quantity {
    if commands == [] then 0
    else
      var n := |commands| - 1;
      PlacedOn(side, commands[..n])
      + if commands[n].PlaceOrder? && commands[n].order.side == side then commands[n].order.quantity else 0
  }

  /** The quantity resting under `id`. */
  function TotalOf(queue: seq<Queued>, id: nat): Quantity {
    if queue == [] then 0
    else (if queue[0].resting.id == id then queue[0].resting.quantity else 0) + TotalOf(queue[1..], id)
  }

  /** What cancellations took off a side. */
  function CancelledOn(side: Side, commands: seq<Command>): Quantity {
    if commands == [] then 0
    else
      var n := |commands| - 1;
      CancelledOn(side, commands[..n])
      + if commands[n].CancelOrder? then TotalOf(SideOf(ApplyAll(commands[..n]), side), commands[n].id) else 0
  }

  lemma {:induction false} FilledInParts(a: seq<Fill>, b: seq<Fill>)
    ensures Filled(a + b) == Filled(a) + Filled(b)
  {
    if a == [] {
      assert a + b == b;
    } else {
      assert (a + b)[0] == a[0] && (a + b)[1..] == a[1..] + b;
      FilledInParts(a[1..], b);
    }
  }

  lemma {:induction false} EnqueueTotal(side: Side, queue: seq<Queued>, q: Queued)
    ensures Total(Enqueue(side, queue, q)) == Total(queue) + q.resting.quantity
  {
    if queue != [] && Before(side, queue[0].price, q.price) {
      EnqueueTotal(side, queue[1..], q);
      assert Enqueue(side, queue, q)[1..] == Enqueue(side, queue[1..], q);
    } else {
      assert Enqueue(side, queue, q)[1..] == queue;
    }
  }

  lemma {:induction false} WithoutTotal(queue: seq<Queued>, id: nat)
    ensures Total(Without(queue, id)) + TotalOf(queue, id) == Total(queue)
  {
    if queue != [] {
      WithoutTotal(queue[1..], id);
      if queue[0].resting.id != id {
        assert Without(queue, id)[1..] == Without(queue[1..], id);
      }
    }
  }

  lemma PlaceConserves(b: Book, order: Order, side: Side)
    ensures var b' := Place(b, order);
            Filled(b'.fills) + Total(SideOf(b', side)) ==
            Filled(b.fills) + Total(SideOf(b, side)) + if order.side == side then order.quantity else 0
  {
    var o := Match(order, SideOf(b, order.side.Opposite()), order.quantity);
    MatchConserves(order, SideOf(b, order.side.Opposite()), order.quantity);
    FilledInParts(b.fills, o.fills);
    EnqueueTotal(order.side, SideOf(b, order.side), Queued(order.price, Resting(order.id, o.remaining, order.trader)));
  }

  /** On each side, everything placed is filled, resting or cancelled. */
  lemma {:induction false} QuantityIsConserved(commands: seq<Command>, side: Side)
    ensures var b := ApplyAll(commands);
            PlacedOn(side, commands) == Filled(b.fills) + Total(SideOf(b, side)) + CancelledOn(side, commands)
  {
    if commands != [] {
      var n := |commands| - 1;
      var b := ApplyAll(commands[..n]);
      QuantityIsConserved(commands[..n], side);
      match commands[n]
      case PlaceOrder(order) => PlaceConserves(b, order, side);
      case CancelOrder(id) => WithoutTotal(SideOf(b, side), id);
    }
  }
}
