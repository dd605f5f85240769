/** The portfolio holds what the broker filled: never more while readings are fresh, exactly
    as much once a complete pass has drained. */
module FillConservation {
  import opened Common
  import opened Oms
  import opened Portfolio
  import opened Protocol
  import opened Evidence

  // ---- draining the bus into the portfolio ----

  /** The execution table after every queued fill has been delivered, oldest first. */
  function Drained(rows: seq<Fill>, queue: seq<Event>): seq<Fill> {
    if queue == [] then rows
    else
      var before, e := Drained(rows, queue[..|queue| - 1]), queue[|queue| - 1];
      if e.TradeFill? then ApplyFill(before, e.fill) else before
  }

  function Held(w: World, id: OrderId): int {
    Executed(w.fills, id)
  }

  /** What the portfolio will hold for the order once the queue is empty. */
  function Eventual(w: World, id: OrderId): int {
    Executed(Drained(w.fills, w.queue), id)
  }

  lemma DrainAppend(rows: seq<Fill>, queue: seq<Event>, e: Event)
    ensures Drained(rows, queue + [e]) == if e.TradeFill? then ApplyFill(Drained(rows, queue), e.fill) else Drained(rows, queue)
  {
    assert (queue + [e])[..|queue|] == queue;
  }

  lemma {:induction false} DrainSplit(rows: seq<Fill>, a: seq<Event>, b: seq<Event>)
    ensures Drained(rows, a + b) == Drained(Drained(rows, a), b)
  {
    if b == [] {
      assert a + b == a;
    } else {
      var n := |b| - 1;
      DrainSplit(rows, a, b[..n]);
      DrainAppend(rows, a + b[..n], b[n]);
      assert a + b[..n] + [b[n]] == a + b;
    }
  }

  lemma DrainFirst(rows: seq<Fill>, queue: seq<Event>)
    requires queue != []
    ensures Drained(rows, queue)
         == Drained(if queue[0].TradeFill? then ApplyFill(rows, queue[0].fill) else rows, queue[1..])
  {
    DrainSplit(rows, [queue[0]], queue[1..]);
    assert queue == [queue[0]] + queue[1..];
    DrainAppend(rows, [], queue[0]);
    assert [] + [queue[0]] == [queue[0]];
  }

  /** Delivery only turns what will be held into what is held. */
  lemma DeliverKeepsEventual(w: World, id: OrderId)
    requires w.queue != []
    ensures Eventual(DeliverHead(w), id) == Eventual(w, id)
    ensures |w.queue| == 1 ==> Held(DeliverHead(w), id) == Eventual(w, id)
  {
    DrainFirst(w.fills, w.queue);
  }

  ghost predicate Queued(queue: seq<Event>, id: OrderId, cumulative: nat) {
    exists i :: 0 <= i < |queue| && queue[i].TradeFill? && queue[i].fill.orderId == id && queue[i].fill.cumulative == cumulative
  }

  lemma ApplyStores(rows: seq<Fill>, f: Fill, id: OrderId, c: nat)
    ensures Stored(ApplyFill(rows, f), id, c) <==> Stored(rows, id, c) || (f.orderId == id && f.cumulative == c)
  {
    HasExecutionMeansStored(rows, f);
    var rows' := ApplyFill(rows, f);
    if rows' == rows + [f] {
      assert rows'[|rows|] == f;
      assert forall i :: 0 <= i < |rows| ==> rows'[i] == rows[i];
    }
  }

  lemma {:induction false} DrainedStores(rows: seq<Fill>, queue: seq<Event>, id: OrderId, c: nat)
    ensures Stored(Drained(rows, queue), id, c) <==> Stored(rows, id, c) || Queued(queue, id, c)
  {
    if queue != [] {
      var n := |queue| - 1;
      DrainedStores(rows, queue[..n], id, c);
      assert Queued(queue, id, c) <==>
        Queued(queue[..n], id, c) || (queue[n].TradeFill? && queue[n].fill.orderId == id && queue[n].fill.cumulative == c);
      if queue[n].TradeFill? {
        ApplyStores(Drained(rows, queue[..n]), queue[n].fill, id, c);
      }
    }
  }

  // ---- fills on their way ----

  /** The event is a fill of this order that the portfolio has not stored. */
  ghost predicate Outstanding(rows: seq<Fill>, e: Event, id: OrderId) {
    e.TradeFill? && e.fill.orderId == id && !Stored(rows, id, e.fill.cumulative)
  }

  ghost predicate AnyOutstanding(rows: seq<Fill>, queue: seq<Event>, id: OrderId) {
    exists i :: 0 <= i < |queue| && Outstanding(rows, queue[i], id)
  }

  /** Every fill of the order still on its way is one and the same step up from what is held. */
  ghost predicate OneStepUp(rows: seq<Fill>, queue: seq<Event>, id: OrderId, target: nat) {
    forall i :: 0 <= i < |queue| && Outstanding(rows, queue[i], id) ==>
      queue[i].fill.cumulative == target && queue[i].fill.quantity == target - Executed(rows, id) > 0
  }

  lemma QueuedOrOutstanding(rows: seq<Fill>, queue: seq<Event>, id: OrderId, c: nat, target: nat)
    requires OneStepUp(rows, queue, id, target)
    ensures c == target && !Stored(rows, id, c) ==> (Queued(queue, id, c) <==> AnyOutstanding(rows, queue, id))
  {
  }

  lemma {:induction false} EventualIsTarget(rows: seq<Fill>, queue: seq<Event>, id: OrderId, target: nat)
    requires OneStepUp(rows, queue, id, target)
    ensures Executed(Drained(rows, queue), id) == if AnyOutstanding(rows, queue, id) then target else Executed(rows, id)
  {
    if queue != [] {
      var n := |queue| - 1;
      var pre, e := queue[..n], queue[n];
      EventualIsTarget(rows, pre, id, target);
      assert AnyOutstanding(rows, queue, id) <==> AnyOutstanding(rows, pre, id) || Outstanding(rows, e, id);
      if e.TradeFill? {
        ApplyFillEffect(Drained(rows, pre), e.fill, id);
        if e.fill.orderId == id {
          DrainedStores(rows, pre, id, e.fill.cumulative);
          QueuedOrOutstanding(rows, pre, id, e.fill.cumulative, target);
        }
      }
    }
  }

  // ---- the invariant of fresh runs ----

  ghost predicate Aligned(rows: seq<Fill>, queue: seq<Event>, id: OrderId, limit: nat) {
    exists target: nat :: target <= limit && OneStepUp(rows, queue, id, target)
  }

  ghost predicate FillInv(w: World, id: OrderId) {
    && 0 <= Held(w, id) <= BrokerFilled(w, id)
    && (forall i :: 0 <= i < |w.fills| && w.fills[i].orderId == id ==> w.fills[i].cumulative <= Held(w, id))
    && Aligned(w.fills, w.queue, id, BrokerFilled(w, id))
    && (w.pass.reading.Some? && w.pass.reading.value.orderId == id ==>
          && w.pass.reading.value.held <= Held(w, id)
          && (w.pass.reading.value.held == Held(w, id) || !AnyOutstanding(w.fills, w.queue, id)))
  }

  ghost predicate CallBacked(w: World, c: Call, id: OrderId) {
    c != Idle && c.orderId == id ==>
      && id in w.orders
      && (c.Checked? || c.Reserved? || c.Answered? ==>
            c.order.filled <= BrokerFilled(w, id) && c.order.mode == w.orders[id].mode)
      && (c.Answered? && c.reply.Some? && c.order.mode == Live ==> c.reply.value.filled == 0)
  }

  /** Every record of the order's filled quantity is backed by the broker's. */
  ghost predicate BackedInv(w: World, id: OrderId) {
    && (id in w.orders ==> w.orders[id].filled <= BrokerFilled(w, id))
    && (forall i :: 0 <= i < |w.pass.todo| && w.pass.todo[i].0 == id ==> w.pass.todo[i].1.filled <= BrokerFilled(w, id))
    && (forall i :: 0 <= i < |w.queue| && w.queue[i].OrderUpdate? && w.queue[i].update.orderId == id
                    ==> w.queue[i].update.filled <= BrokerFilled(w, id))
    && CallBacked(w, w.dispatcher, id) && CallBacked(w, w.recovery, id)
  }

  ghost predicate LiveOrNew(w: World, id: OrderId) {
    id in w.orders ==> w.orders[id].mode == Live
  }

  /** The fill a reconciliation step publishes: its cumulative quantity and the reading behind it. */
  ghost predicate PublishesFill(w: World, step: Step, id: OrderId, n: nat, held: int)
    requires Enabled(w, step)
  {
    || (step.Settle? && step.answer.Some? && w.pass.reading.value.orderId == id
        && n == step.answer.value.filled && held == w.pass.reading.value.held && n > held)
    || (step.ReadHeld? && w.pass.todo[0].0 == id && w.pass.todo[0].1.status == Filled
        && n == w.pass.todo[0].1.filled && held == Held(w, id) && n > held)
  }

  /** The published quantity is a difference to something other than what the portfolio will
      hold when the event arrives. */
  ghost predicate StaleFill(w: World, id: OrderId, n: nat, held: int) {
    && !Stored(w.fills, id, n)
    && (held != Held(w, id)
        || exists i :: 0 <= i < |w.queue| && Outstanding(w.fills, w.queue[i], id) && w.queue[i].fill.cumulative != n)
  }

  ghost predicate Stale(w: World, step: Step, id: OrderId)
    requires Enabled(w, step)
  {
    exists n, held :: PublishesFill(w, step, id, n, held) && StaleFill(w, id, n, held)
  }

  // ---- publishing ----

  lemma NeutralEventKeepsAligned(rows: seq<Fill>, queue: seq<Event>, e: Event, id: OrderId, limit: nat)
    requires Aligned(rows, queue, id, limit) && !Outstanding(rows, e, id)
    ensures Aligned(rows, queue + [e], id, limit)
    ensures AnyOutstanding(rows, queue + [e], id) <==> AnyOutstanding(rows, queue, id)
  {
    var target: nat :| target <= limit && OneStepUp(rows, queue, id, target);
    assert OneStepUp(rows, queue + [e], id, target);
    assert forall i :: 0 <= i < |queue| ==> (queue + [e])[i] == queue[i];
  }

  lemma FreshFillKeepsAligned(w: World, queue: seq<Event>, id: OrderId, n: nat, held: int)
    requires Aligned(w.fills, w.queue, id, BrokerFilled(w, id)) && Aligned(w.fills, queue, id, BrokerFilled(w, id))
    requires !StaleFill(w, id, n, held) && held < n <= BrokerFilled(w, id)
    requires forall i :: 0 <= i < |queue| && Outstanding(w.fills, queue[i], id) ==> i < |w.queue| && queue[i] == w.queue[i]
    ensures Aligned(w.fills, queue + [TradeFill(Fill(id, n, n - held))], id, BrokerFilled(w, id))
  {
    var e := TradeFill(Fill(id, n, n - held));
    if Stored(w.fills, id, n) {
      NeutralEventKeepsAligned(w.fills, queue, e, id, BrokerFilled(w, id));
    } else {
      var target: nat :| OneStepUp(w.fills, queue, id, target);
      assert OneStepUp(w.fills, queue + [e], id, n);
    }
  }

  lemma NeutralEventsKeepAligned(rows: seq<Fill>, queue: seq<Event>, evs: seq<Event>, id: OrderId, limit: nat)
    requires Aligned(rows, queue, id, limit)
    requires forall i :: 0 <= i < |evs| ==> !Outstanding(rows, evs[i], id)
    ensures Aligned(rows, queue + evs, id, limit)
    ensures AnyOutstanding(rows, queue + evs, id) <==> AnyOutstanding(rows, queue, id)
  {
    if evs == [] {
      assert queue + evs == queue;
    } else {
      var n := |evs| - 1;
      NeutralEventsKeepAligned(rows, queue, evs[..n], id, limit);
      NeutralEventKeepsAligned(rows, queue + evs[..n], evs[n], id, limit);
      assert queue + evs[..n] + [evs[n]] == queue + evs;
    }
  }

  // ---- every step keeps the books backed by the broker ----

  lemma DeliverKeepsBacked(w: World, id: OrderId)
    requires Enabled(w, Deliver) && BackedInv(w, id)
    ensures BackedInv(DeliverHead(w), id)
  {
    if w.queue[0].OrderUpdate? && w.queue[0].update.orderId in w.orders {
      EventAdvances(w.orders[w.queue[0].update.orderId], w.queue[0].update);
    }
  }

  lemma {:induction false} SnapshotOf(orders: map<OrderId, Order>, ids: seq<OrderId>)
    ensures forall i :: 0 <= i < |Snapshot(orders, ids)| ==>
              var (id, o) := Snapshot(orders, ids)[i]; id in orders && o == orders[id] && Reconcilable(o) && id in ids
  {
    if ids != [] {
      SnapshotOf(orders, ids[1..]);
    }
  }

  lemma BoundaryKeepsBacked(w: World, t: TaskId, healthy: bool, authorized: bool, id: OrderId)
    requires CallOf(w, t).Checked? && BackedInv(w, id)
    ensures BackedInv(PassBoundary(w, t, healthy, authorized), id)
  {
  }

  lemma ReserveKeepsBacked(w: World, t: TaskId, id: OrderId)
    requires CallOf(w, t).Cleared? && BackedInv(w, id)
    ensures BackedInv(ReserveOrder(w, t), id)
  {
  }

  lemma PlaceKeepsBacked(w: World, t: TaskId, reply: Option<Response>, id: OrderId)
    requires Enabled(w, Place(t, reply)) && BackedInv(w, id)
    ensures BackedInv(PlaceOrder(w, t, reply), id)
  {
  }

  lemma ReportKeepsBacked(w: World, t: TaskId, id: OrderId)
    requires CallOf(w, t).Answered? && BackedInv(w, id) && LiveOrNew(w, id)
    ensures BackedInv(Next(w, Report(t)), id)
  {
  }

  lemma ListOrdersKeepsBacked(w: World, ids: seq<OrderId>, id: OrderId)
    requires Enabled(w, ListOrders(ids)) && BackedInv(w, id)
    ensures BackedInv(Next(w, ListOrders(ids)), id)
  {
    SnapshotOf(w.orders, ids);
  }

  lemma ReadHeldKeepsBacked(w: World, id: OrderId)
    requires Enabled(w, ReadHeld) && BackedInv(w, id)
    ensures BackedInv(Next(w, ReadHeld), id)
  {
  }

  lemma SettleKeepsBacked(w: World, answer: Option<Response>, id: OrderId)
    requires Enabled(w, Settle(answer)) && BackedInv(w, id)
    ensures BackedInv(Next(w, Settle(answer)), id)
  {
  }

  lemma StepKeepsBacked(w: World, step: Step, id: OrderId)
    requires Enabled(w, step) && BackedInv(w, id) && LiveOrNew(w, id)
    ensures BackedInv(Next(w, step), id)
  {
    match step
    case Deliver => DeliverKeepsBacked(w, id);
    case ListOrders(ids) => ListOrdersKeepsBacked(w, ids, id);
    case ReadHeld => ReadHeldKeepsBacked(w, id);
    case Settle(answer) => SettleKeepsBacked(w, answer, id);
    case Boundary(t, healthy, authorized) => BoundaryKeepsBacked(w, t, healthy, authorized, id);
    case Reserve(t) => ReserveKeepsBacked(w, t, id);
    case Place(t, reply) => PlaceKeepsBacked(w, t, reply, id);
    case Report(t) => ReportKeepsBacked(w, t, id);
    case Submit(_, _) =>
    case Decide(_, _) =>
    case Replay(_) =>
    case Recover(_) =>
    case BrokerFill(_, _) =>
    case Crash =>
  }

  // ---- every fresh step keeps the portfolio in line with the broker ----

  /** Publishing anything but an unstored fill of the order leaves its books alone. */
  lemma NeutralPublicationKeepsFills(w: World, w': World, evs: seq<Event>, id: OrderId)
    requires FillInv(w, id)
    requires w'.fills == w.fills && w'.queue == w.queue + evs
    requires w'.brokerFilled == w.brokerFilled
    requires w'.pass == w.pass || (w'.pass.reading.Some? ==> w'.pass.reading.value.orderId != id || w'.pass.reading.value.held == Held(w, id))
    requires forall i :: 0 <= i < |evs| ==> !Outstanding(w.fills, evs[i], id)
    ensures FillInv(w', id)
  {
    NeutralEventsKeepAligned(w.fills, w.queue, evs, id, BrokerFilled(w, id));
  }

  lemma FillRowsStayBelow(rows: seq<Fill>, f: Fill, id: OrderId)
    requires forall i :: 0 <= i < |rows| && rows[i].orderId == id ==> rows[i].cumulative <= Executed(rows, id)
    requires f.orderId == id && !Stored(rows, id, f.cumulative) ==> f.quantity == f.cumulative - Executed(rows, id) > 0
    ensures var rows' := ApplyFill(rows, f);
            forall i :: 0 <= i < |rows'| && rows'[i].orderId == id ==> rows'[i].cumulative <= Executed(rows', id)
  {
    ApplyFillEffect(rows, f, id);
    HasExecutionMeansStored(rows, f);
  }

  lemma DeliveredFillKeepsAligned(rows: seq<Fill>, queue: seq<Event>, id: OrderId, target: nat)
    requires queue != [] && queue[0].TradeFill? && OneStepUp(rows, queue, id, target)
    ensures OneStepUp(ApplyFill(rows, queue[0].fill), queue[1..], id, target)
    ensures AnyOutstanding(ApplyFill(rows, queue[0].fill), queue[1..], id)
            ==> AnyOutstanding(rows, queue, id) && Executed(ApplyFill(rows, queue[0].fill), id) == Executed(rows, id)
    ensures Outstanding(rows, queue[0], id) ==> Executed(ApplyFill(rows, queue[0].fill), id) == target
  {
    var f := queue[0].fill;
    ApplyFillEffect(rows, f, id);
    forall i | 0 <= i < |queue[1..]| && Outstanding(ApplyFill(rows, f), queue[1..][i], id)
      ensures Outstanding(rows, queue[i + 1], id) && !Outstanding(rows, queue[0], id)
    {
      assert queue[1..][i] == queue[i + 1];
      ApplyStores(rows, f, id, queue[i + 1].fill.cumulative);
    }
  }

  lemma DeliverTradeKeepsFills(w: World, id: OrderId)
    requires w.queue != [] && w.queue[0].TradeFill? && FillInv(w, id)
    ensures FillInv(DeliverHead(w), id)
  {
    var f := w.queue[0].fill;
    var target: nat :| target <= BrokerFilled(w, id) && OneStepUp(w.fills, w.queue, id, target);
    DeliveredFillKeepsAligned(w.fills, w.queue, id, target);
    FillRowsStayBelow(w.fills, f, id);
    ApplyFillEffect(w.fills, f, id);
    var w' := DeliverHead(w);
    assert w'.fills == ApplyFill(w.fills, f) && w'.queue == w.queue[1..] && w'.pass == w.pass;
    assert if Outstanding(w.fills, w.queue[0], id) then Held(w', id) == target > Held(w, id) else Held(w', id) == Held(w, id);
  }

  lemma DeliverKeepsFills(w: World, id: OrderId)
    requires Enabled(w, Deliver) && FillInv(w, id)
    ensures FillInv(DeliverHead(w), id)
  {
    if w.queue[0].TradeFill? {
      DeliverTradeKeepsFills(w, id);
    } else {
      var target: nat :| target <= BrokerFilled(w, id) && OneStepUp(w.fills, w.queue, id, target);
      assert DeliverHead(w).queue == w.queue[1..];
      assert OneStepUp(w.fills, w.queue[1..], id, target);
    }
  }

  lemma ReportKeepsFills(w: World, t: TaskId, id: OrderId)
    requires CallOf(w, t).Answered? && FillInv(w, id) && BackedInv(w, id) && LiveOrNew(w, id)
    ensures FillInv(Next(w, Report(t)), id)
  {
    var Answered(x, o, reply) := CallOf(w, t);
    NeutralPublicationKeepsFills(w, Next(w, Report(t)), Outcome(x, o, reply), id);
  }

  lemma FillPublicationKeepsFills(w: World, w': World, evs: seq<Event>, id: OrderId, n: nat, held: int)
    requires FillInv(w, id) && held < n <= BrokerFilled(w, id) && !StaleFill(w, id, n, held)
    requires forall i :: 0 <= i < |evs| ==> evs[i].OrderUpdate?
    requires w'.fills == w.fills && w'.queue == w.queue + evs + [TradeFill(Fill(id, n, n - held))]
    requires w'.brokerFilled == w.brokerFilled && w'.pass.reading == None
    ensures FillInv(w', id)
  {
    NeutralEventsKeepAligned(w.fills, w.queue, evs, id, BrokerFilled(w, id));
    FreshFillKeepsAligned(w, w.queue + evs, id, n, held);
  }

  lemma SettleKeepsFills(w: World, answer: Option<Response>, id: OrderId)
    requires Enabled(w, Settle(answer)) && FillInv(w, id) && !Stale(w, Settle(answer), id)
    ensures FillInv(Next(w, Settle(answer)), id)
  {
    var r := w.pass.reading.value;
    var w' := Publish(w, Repair(r, answer)).(pass := Pass(w.pass.todo, None));
    if answer.Some? && r.orderId == id && answer.value.filled > r.held {
      var n := answer.value.filled;
      assert PublishesFill(w, Settle(answer), id, n, r.held);
      assert w.queue + Repair(r, answer) == w.queue + Repair(r, answer)[..1] + [TradeFill(Fill(id, n, n - r.held))];
      FillPublicationKeepsFills(w, w', Repair(r, answer)[..1], id, n, r.held);
    } else {
      NeutralPublicationKeepsFills(w, w', Repair(r, answer), id);
    }
  }

  lemma ReadKeepsFills(w: World, id: OrderId)
    requires Enabled(w, ReadHeld) && FillInv(w, id) && BackedInv(w, id) && !Stale(w, ReadHeld, id)
    ensures FillInv(ReadPortfolio(w), id)
  {
    var (x, o) := w.pass.todo[0];
    var held := Held(w, x);
    var w' := ReadPortfolio(w);
    if o.status == Filled && x == id && o.filled > held {
      assert PublishesFill(w, ReadHeld, id, o.filled, held);
      assert w.queue + MissingFill(id, o.filled, held) == w.queue + [] + [TradeFill(Fill(id, o.filled, o.filled - held))];
      FillPublicationKeepsFills(w, w', [], id, o.filled, held);
    } else if o.status == Filled {
      NeutralPublicationKeepsFills(w, w', MissingFill(x, o.filled, held), id);
    } else {
      assert w.queue + [] == w.queue;
      NeutralPublicationKeepsFills(w, w', [], id);
    }
  }

  /** A call publishes at most one order update, and touches nothing the portfolio's books depend on. */
  lemma CallStagePublishes(w: World, step: Step) returns (evs: seq<Event>)
    requires step.Boundary? || step.Reserve? || step.Place?
    requires Enabled(w, step)
    ensures var w' := Next(w, step);
            && w'.fills == w.fills && w'.queue == w.queue + evs && w'.brokerFilled == w.brokerFilled && w'.pass == w.pass
    ensures forall i :: 0 <= i < |evs| ==> evs[i].OrderUpdate?
  {
    evs := Next(w, step).queue[|w.queue|..];
  }

  lemma CallStageKeepsFills(w: World, step: Step, id: OrderId)
    requires step.Boundary? || step.Reserve? || step.Place?
    requires Enabled(w, step) && FillInv(w, id)
    ensures FillInv(Next(w, step), id)
  {
    var evs := CallStagePublishes(w, step);
    NeutralPublicationKeepsFills(w, Next(w, step), evs, id);
  }

  lemma StepKeepsFills(w: World, step: Step, id: OrderId)
    requires Enabled(w, step) && FillInv(w, id) && BackedInv(w, id) && LiveOrNew(w, id)
    requires !Stale(w, step, id)
    ensures FillInv(Next(w, step), id)
  {
    match step
    case Deliver => DeliverKeepsFills(w, id);
    case Boundary(_, _, _) => CallStageKeepsFills(w, step, id);
    case Reserve(_) => CallStageKeepsFills(w, step, id);
    case Place(_, _) => CallStageKeepsFills(w, step, id);
    case Report(t) => ReportKeepsFills(w, t, id);
    case ReadHeld => ReadKeepsFills(w, id);
    case Settle(answer) => SettleKeepsFills(w, answer, id);
    case Decide(x, approved) =>
      if w.orders[x].status == Validating && approved {
        NeutralPublicationKeepsFills(w, Next(w, step), [Command(x)], id);
      }
    case Replay(x) => NeutralPublicationKeepsFills(w, Next(w, step), [Command(x)], id);
    case Crash => assert OneStepUp(w.fills, [], id, 0);
    case Submit(_, _) =>
    case Recover(_) =>
    case BrokerFill(_, n) =>
    case ListOrders(_) =>
  }

  ghost predicate NeverStale(w: World, steps: seq<Step>, id: OrderId)
    requires Valid(w, steps)
  {
    steps == [] || (NeverStale(w, steps[..|steps| - 1], id) && !Stale(After(w, steps[..|steps| - 1]), steps[|steps| - 1], id))
  }

  lemma ModeIsFixed(w: World, step: Step, id: OrderId)
    requires Enabled(w, step) && LiveOrNew(Next(w, step), id)
    ensures LiveOrNew(w, id)
  {
    if step.Deliver? && w.queue[0].OrderUpdate? && w.queue[0].update.orderId in w.orders {
      EventAdvances(w.orders[w.queue[0].update.orderId], w.queue[0].update);
    }
  }

  lemma EventualBetween(w: World, id: OrderId)
    requires FillInv(w, id)
    ensures Held(w, id) <= Eventual(w, id) <= BrokerFilled(w, id)
  {
    var target: nat :| target <= BrokerFilled(w, id) && OneStepUp(w.fills, w.queue, id, target);
    EventualIsTarget(w.fills, w.queue, id, target);
  }

  /** In every run whose reconciliation readings are fresh, the portfolio never holds more of a
      LIVE order than the broker filled, now or after the queue drains, and no record of the
      order's filled quantity exceeds the broker's. */
  lemma {:induction false} PortfolioNeverExceedsBroker(steps: seq<Step>, id: OrderId)
    requires Valid(START, steps) && NeverStale(START, steps, id) && LiveOrNew(After(START, steps), id)
    ensures var w := After(START, steps);
            FillInv(w, id) && BackedInv(w, id)
            && 0 <= Held(w, id) <= Eventual(w, id) <= BrokerFilled(w, id)
  {
    if steps == [] {
      assert OneStepUp([], [], id, 0);
    } else {
      var before, last := steps[..|steps| - 1], steps[|steps| - 1];
      var w := After(START, before);
      ModeIsFixed(w, last, id);
      PortfolioNeverExceedsBroker(before, id);
      StepKeepsBacked(w, last, id);
      StepKeepsFills(w, last, id);
    }
    EventualBetween(After(START, steps), id);
  }

  // ---- the freshness condition is exact ----

  lemma {:induction false} DrainNeutral(rows: seq<Fill>, queue: seq<Event>, evs: seq<Event>)
    requires forall i :: 0 <= i < |evs| ==> !evs[i].TradeFill?
    ensures Drained(rows, queue + evs) == Drained(rows, queue)
  {
    if evs == [] {
      assert queue + evs == queue;
    } else {
      var n := |evs| - 1;
      DrainNeutral(rows, queue, evs[..n]);
      DrainAppend(rows, queue + evs[..n], evs[n]);
      assert queue + evs[..n] + [evs[n]] == queue + evs;
    }
  }

  lemma DrainFill(w: World, evs: seq<Event>, id: OrderId, n: nat, held: int)
    requires forall i :: 0 <= i < |evs| ==> evs[i].OrderUpdate?
    ensures Executed(Drained(w.fills, w.queue + evs + [TradeFill(Fill(id, n, n - held))]), id)
         == Eventual(w, id) + if Stored(w.fills, id, n) || Queued(w.queue, id, n) then 0 else n - held
  {
    DrainNeutral(w.fills, w.queue, evs);
    var f := Fill(id, n, n - held);
    DrainAppend(w.fills, w.queue + evs, TradeFill(f));
    ApplyFillEffect(Drained(w.fills, w.queue), f, id);
    DrainedStores(w.fills, w.queue, id, n);
  }

  lemma StaleFillMeans(w: World, id: OrderId, n: nat, held: int, target: nat)
    requires OneStepUp(w.fills, w.queue, id, target)
    ensures StaleFill(w, id, n, held) <==>
              !Stored(w.fills, id, n) && (held != Held(w, id) || (AnyOutstanding(w.fills, w.queue, id) && target != n))
    ensures AnyOutstanding(w.fills, w.queue, id) ==> target > Held(w, id)
  {
  }

  lemma QueuedIsTarget(w: World, id: OrderId, n: nat, target: nat)
    requires OneStepUp(w.fills, w.queue, id, target) && !Stored(w.fills, id, n)
    ensures Queued(w.queue, id, n) <==> AnyOutstanding(w.fills, w.queue, id) && target == n
  {
  }

  /** No stored fill is past what is held, and whatever is on its way is one step up from it. */
  ghost predicate InStep(w: World, id: OrderId) {
    && 0 <= Held(w, id)
    && (forall i :: 0 <= i < |w.fills| && w.fills[i].orderId == id ==> w.fills[i].cumulative <= Held(w, id))
    && exists target: nat :: OneStepUp(w.fills, w.queue, id, target)
  }

  /** Publishing the difference between a quantity and a reading of what is held leaves the portfolio
      with the greater of the quantity and what it was going to hold, exactly when the difference was
      not stale; a stale one leaves it with more. */
  lemma PublicationTakesMaximum(w: World, w': World, evs: seq<Event>, id: OrderId, n: nat, held: int)
    requires InStep(w, id) && held <= Held(w, id) && (held == Held(w, id) || !AnyOutstanding(w.fills, w.queue, id))
    requires forall i :: 0 <= i < |evs| ==> evs[i].OrderUpdate?
    requires w'.fills == w.fills && w'.queue == w.queue + evs + MissingFill(id, n, held)
    ensures Eventual(w', id) >= Max(Eventual(w, id), n)
    ensures Eventual(w', id) == Max(Eventual(w, id), n) <==> !(n > held && StaleFill(w, id, n, held))
  {
    var target: nat :| OneStepUp(w.fills, w.queue, id, target);
    StaleFillMeans(w, id, n, held, target);
    EventualIsTarget(w.fills, w.queue, id, target);
    if n > held {
      DrainFill(w, evs, id, n, held);
      if !Stored(w.fills, id, n) {
        QueuedIsTarget(w, id, n, target);
      }
    } else {
      assert w.queue + evs + [] == w.queue + evs;
      DrainNeutral(w.fills, w.queue, evs);
    }
  }

  /** The quantity a reconciliation step goes by for this order: the broker's answer, or what a
      FILLED row says. */
  ghost predicate Reconciles(w: World, step: Step, id: OrderId, n: nat)
    requires Enabled(w, step)
  {
    || (step.Settle? && step.answer.Some? && w.pass.reading.value.orderId == id && n == step.answer.value.filled)
    || (step.ReadHeld? && w.pass.todo[0].0 == id && w.pass.todo[0].1.status == Filled && n == w.pass.todo[0].1.filled)
  }

  /** What the step read the portfolio to hold. */
  ghost function ReadingOf(w: World, step: Step, id: OrderId): int
    requires Enabled(w, step)
  {
    if step.Settle? then w.pass.reading.value.held else Held(w, id)
  }

  lemma StaleMeans(w: World, step: Step, id: OrderId, n: nat)
    requires Enabled(w, step) && Reconciles(w, step, id, n)
    ensures Stale(w, step, id) <==> n > ReadingOf(w, step, id) && StaleFill(w, id, n, ReadingOf(w, step, id))
  {
    assert n > ReadingOf(w, step, id) ==> PublishesFill(w, step, id, n, ReadingOf(w, step, id));
  }

  lemma ReconcilingPublishes(w: World, step: Step, id: OrderId, n: nat) returns (evs: seq<Event>)
    requires Enabled(w, step) && Reconciles(w, step, id, n)
    ensures forall i :: 0 <= i < |evs| ==> evs[i].OrderUpdate?
    ensures var w' := Next(w, step);
            w'.fills == w.fills && w'.queue == w.queue + evs + MissingFill(id, n, ReadingOf(w, step, id))
  {
    if step.Settle? {
      var r := w.pass.reading.value;
      evs := Repair(r, step.answer)[..1];
      assert Repair(r, step.answer) == evs + MissingFill(id, n, r.held);
      assert w.queue + (evs + MissingFill(id, n, r.held)) == w.queue + evs + MissingFill(id, n, r.held);
    } else {
      evs := [];
      assert w.queue + [] == w.queue;
    }
  }

  /** Every reconciliation step, whatever the broker answers and for FILLED rows too, takes what the
      portfolio will hold to the greater of that and the step's quantity exactly when its reading was
      fresh; after a stale one it will hold more. */
  lemma ReconcilingTakesMaximum(w: World, step: Step, id: OrderId, n: nat)
    requires Enabled(w, step) && FillInv(w, id) && Reconciles(w, step, id, n)
    ensures Eventual(Next(w, step), id) >= Max(Eventual(w, id), n)
    ensures Eventual(Next(w, step), id) == Max(Eventual(w, id), n) <==> !Stale(w, step, id)
  {
    StaleMeans(w, step, id, n);
    var evs := ReconcilingPublishes(w, step, id, n);
    PublicationTakesMaximum(w, Next(w, step), evs, id, n, ReadingOf(w, step, id));
  }

  /** The step, if it reconciles the order, takes the maximum. */
  ghost predicate TakesMaximum(w: World, step: Step, id: OrderId)
    requires Enabled(w, step)
  {
    forall n: nat :: Reconciles(w, step, id, n) ==> Eventual(Next(w, step), id) == Max(Eventual(w, id), n)
  }

  ghost predicate AlwaysTakesMaximum(w: World, steps: seq<Step>, id: OrderId)
    requires Valid(w, steps)
  {
    steps == [] || (AlwaysTakesMaximum(w, steps[..|steps| - 1], id)
                    && TakesMaximum(After(w, steps[..|steps| - 1]), steps[|steps| - 1], id))
  }

  lemma StaleExactlyWhenNotMaximal(w: World, step: Step, id: OrderId)
    requires Enabled(w, step) && FillInv(w, id)
    ensures TakesMaximum(w, step, id) <==> !Stale(w, step, id)
  {
    if n: nat :| Reconciles(w, step, id, n) {
      ReconcilingTakesMaximum(w, step, id, n);
    } else {
      forall n: nat, held | PublishesFill(w, step, id, n, held)
        ensures Reconciles(w, step, id, n)
      {
      }
    }
  }

  /** In every run of a LIVE order: all readings were fresh exactly when every reconciliation step took
      the maximum of what was going to be held and its quantity. */
  lemma {:induction false} FreshExactlyWhenMaximal(steps: seq<Step>, id: OrderId)
    requires Valid(START, steps) && LiveOrNew(After(START, steps), id)
    ensures NeverStale(START, steps, id) <==> AlwaysTakesMaximum(START, steps, id)
  {
    if steps != [] {
      var before, last := steps[..|steps| - 1], steps[|steps| - 1];
      ModeIsFixed(After(START, before), last, id);
      FreshExactlyWhenMaximal(before, id);
      if NeverStale(START, before, id) {
        PortfolioNeverExceedsBroker(before, id);
        StaleExactlyWhenNotMaximal(After(START, before), last, id);
      }
    }
  }

  /** In particular, a step that goes by the broker's current cumulative fill ends within it exactly
      when its reading was fresh, and then ends equal to it. */
  lemma FreshReadingsAreExactlySafe(w: World, step: Step, id: OrderId)
    requires Enabled(w, step) && FillInv(w, id) && Reconciles(w, step, id, BrokerFilled(w, id))
    ensures Eventual(Next(w, step), id) <= BrokerFilled(w, id) <==> !Stale(w, step, id)
    ensures !Stale(w, step, id) ==> Eventual(Next(w, step), id) == BrokerFilled(w, id)
  {
    ReconcilingTakesMaximum(w, step, id, BrokerFilled(w, id));
    EventualBetween(w, id);
  }

  // ---- a complete pass repairs whatever was lost ----

  function VisitOrder(w: World, g: Gateway): (w': World)
    requires w.pass.reading == None && w.pass.todo != []
    ensures w'.pass == Pass(w.pass.todo[1..], None)
  {
    var w1 := ReadPortfolio(w);
    if w1.pass.reading == None then w1
    else
      var r := w1.pass.reading.value;
      Publish(w1, Repair(r, EvidenceFor(r.orderId, r.order, g))).(pass := Pass(w1.pass.todo, None))
  }

  /** The rest of a reconciliation pass with nothing interleaved: the pure form of the loop. */
  function RestOfPass(w: World, g: Gateway): World
    requires w.pass.reading == None
    decreases |w.pass.todo|
  {
    if w.pass.todo == [] then w else RestOfPass(VisitOrder(w, g), g)
  }

  /** The cumulative fill a pass goes by: the stored one for a FILLED order, else the broker's. */
  function FillEvidence(id: OrderId, o: Order, g: Gateway): nat {
    if o.status == Filled then o.filled
    else if EvidenceFor(id, o, g).Some? then EvidenceFor(id, o, g).value.filled
    else 0
  }

  ghost predicate Settled(w: World, id: OrderId) {
    && 0 <= Held(w, id)
    && (forall i :: 0 <= i < |w.fills| && w.fills[i].orderId == id ==> w.fills[i].cumulative <= Held(w, id))
    && !AnyOutstanding(w.fills, w.queue, id)
  }

  /** A visit appends order updates and then the fill that is missing, if any. */
  lemma VisitPublishes(w: World, g: Gateway) returns (updates: seq<Event>)
    requires w.pass.reading == None && w.pass.todo != []
    ensures var (id, o) := w.pass.todo[0]; var w' := VisitOrder(w, g);
            Held(w, id) >= 0 ==> w'.queue == w.queue + updates + MissingFill(id, FillEvidence(id, o, g), Held(w, id))
    ensures forall i :: 0 <= i < |updates| ==> updates[i].OrderUpdate?
    ensures VisitOrder(w, g).fills == w.fills
  {
    var (id, o) := w.pass.todo[0];
    if o.status == Filled || EvidenceFor(id, o, g) == None {
      updates := [];
      assert w.queue + [] == w.queue;
    } else {
      var r := Reading(id, o, Held(w, id));
      updates := Repair(r, EvidenceFor(id, o, g))[..1];
      var published := MissingFill(id, EvidenceFor(id, o, g).value.filled, r.held);
      assert Repair(r, EvidenceFor(id, o, g)) == updates + published;
      assert w.queue + (updates + published) == w.queue + updates + published;
    }
  }

  /** More than what is held has been filled, and the queue carries a fill to a different quantity. */
  ghost predicate AnotherOnItsWay(w: World, id: OrderId, n: nat) {
    n > Held(w, id) && StaleFill(w, id, n, Held(w, id))
  }

  /** Visiting an order takes the maximum unless another quantity is on its way to the portfolio. */
  lemma VisitedOrder(w: World, g: Gateway)
    requires w.pass.reading == None && w.pass.todo != [] && InStep(w, w.pass.todo[0].0)
    ensures var (id, o) := w.pass.todo[0]; var w', n := VisitOrder(w, g), FillEvidence(id, o, g);
            && Eventual(w', id) >= Max(Eventual(w, id), n)
            && (Eventual(w', id) == Max(Eventual(w, id), n) <==> !AnotherOnItsWay(w, id, n))
  {
    var (id, o) := w.pass.todo[0];
    var updates := VisitPublishes(w, g);
    PublicationTakesMaximum(w, VisitOrder(w, g), updates, id, FillEvidence(id, o, g), Held(w, id));
  }

  lemma EventualWhenSettled(w: World, id: OrderId)
    requires Settled(w, id)
    ensures Eventual(w, id) == Held(w, id)
  {
    assert OneStepUp(w.fills, w.queue, id, 0);
    EventualIsTarget(w.fills, w.queue, id, 0);
  }

  lemma SettledMeansUnknown(w: World, id: OrderId, n: nat)
    requires Settled(w, id) && n > Held(w, id)
    ensures !Stored(w.fills, id, n) && !Queued(w.queue, id, n)
  {
    forall i | 0 <= i < |w.queue| && w.queue[i].TradeFill? && w.queue[i].fill.orderId == id
      ensures Stored(w.fills, id, w.queue[i].fill.cumulative)
    {
      assert !Outstanding(w.fills, w.queue[i], id);
    }
  }

  lemma ForeignEventsKeepStep(w: World, w': World, evs: seq<Event>, id: OrderId, n: nat)
    requires w'.fills == w.fills && w'.queue == w.queue + evs
    requires forall i :: 0 <= i < |evs| && evs[i].TradeFill? ==> evs[i].fill.orderId != id
    ensures InStep(w, id) ==> InStep(w', id)
    ensures AnotherOnItsWay(w', id, n) <==> AnotherOnItsWay(w, id, n)
  {
    assert forall i :: 0 <= i < |w.queue| ==> w'.queue[i] == w.queue[i];
    assert forall i :: |w.queue| <= i < |w'.queue| ==> !Outstanding(w.fills, w'.queue[i], id);
    if InStep(w, id) {
      var target: nat :| OneStepUp(w.fills, w.queue, id, target);
      assert OneStepUp(w'.fills, w'.queue, id, target);
    }
  }

  /** A visit only appends, and every fill it appends is its own order's. */
  lemma VisitAppends(w: World, g: Gateway) returns (evs: seq<Event>)
    requires w.pass.reading == None && w.pass.todo != []
    ensures var w' := VisitOrder(w, g); w'.fills == w.fills && w'.queue == w.queue + evs
    ensures forall i :: 0 <= i < |evs| && evs[i].TradeFill? ==> evs[i].fill.orderId == w.pass.todo[0].0
  {
    var (id, o) := w.pass.todo[0];
    evs := if o.status == Filled then MissingFill(id, o.filled, Held(w, id))
           else Repair(Reading(id, o, Held(w, id)), EvidenceFor(id, o, g));
  }

  lemma {:induction false} ForeignEvents(rows: seq<Fill>, queue: seq<Event>, evs: seq<Event>, id: OrderId)
    requires forall i :: 0 <= i < |evs| && evs[i].TradeFill? ==> evs[i].fill.orderId != id
    ensures Executed(Drained(rows, queue + evs), id) == Executed(Drained(rows, queue), id)
  {
    if evs == [] {
      assert queue + evs == queue;
    } else {
      var n := |evs| - 1;
      ForeignEvents(rows, queue, evs[..n], id);
      DrainAppend(rows, queue + evs[..n], evs[n]);
      assert queue + evs[..n] + [evs[n]] == queue + evs;
      if evs[n].TradeFill? {
        ApplyFillEffect(Drained(rows, queue + evs[..n]), evs[n].fill, id);
      }
    }
  }

  /** Visiting one order publishes nothing about another. */
  lemma VisitLeavesOthers(w: World, g: Gateway, id: OrderId, n: nat)
    requires w.pass.reading == None && w.pass.todo != [] && w.pass.todo[0].0 != id
    ensures var w' := VisitOrder(w, g);
            && Eventual(w', id) == Eventual(w, id)
            && (InStep(w, id) ==> InStep(w', id))
            && (AnotherOnItsWay(w', id, n) <==> AnotherOnItsWay(w, id, n))
  {
    var evs := VisitAppends(w, g);
    ForeignEvents(w.fills, w.queue, evs, id);
    ForeignEventsKeepStep(w, VisitOrder(w, g), evs, id, n);
  }

  ghost predicate Distinct(todo: seq<(OrderId, Order)>) {
    forall i, j :: 0 <= i < j < |todo| ==> todo[i].0 != todo[j].0
  }

  ghost predicate Listed(todo: seq<(OrderId, Order)>, id: OrderId) {
    exists i :: 0 <= i < |todo| && todo[i].0 == id
  }

  lemma ListedSplit(a: seq<(OrderId, Order)>, b: seq<(OrderId, Order)>, id: OrderId)
    ensures Listed(a + b, id) <==> Listed(a, id) || Listed(b, id)
  {
    assert forall i :: 0 <= i < |a| ==> (a + b)[i] == a[i];
    assert forall i :: 0 <= i < |b| ==> (a + b)[|a| + i] == b[i];
  }

  /** A pass visits exactly the LIVE orders on the list that are FILLED or between their submission and their end. */
  lemma {:induction false} ListedExactly(orders: map<OrderId, Order>, ids: seq<OrderId>, id: OrderId)
    ensures Listed(Snapshot(orders, ids), id) <==>
              && id in ids && id in orders && orders[id].mode == Live
              && (orders[id].status == Filled || (Rank(orders[id].status) >= Rank(Submitting) && !Terminal(orders[id].status)))
  {
    if ids != [] {
      ListedExactly(orders, ids[1..], id);
      var first := if ids[0] in orders && Reconcilable(orders[ids[0]]) then [(ids[0], orders[ids[0]])] else [];
      assert Snapshot(orders, ids) == first + Snapshot(orders, ids[1..]);
      ListedSplit(first, Snapshot(orders, ids[1..]), id);
      assert Listed(first, id) <==> ids[0] == id && first != [] by {
        assert first != [] ==> first[0].0 == ids[0];
      }
    }
  }

  /** A list without repetitions makes every visit another order's. */
  lemma {:induction false} ListedOnce(orders: map<OrderId, Order>, ids: seq<OrderId>)
    requires forall i, j :: 0 <= i < j < |ids| ==> ids[i] != ids[j]
    ensures Distinct(Snapshot(orders, ids))
  {
    if ids != [] {
      ListedOnce(orders, ids[1..]);
      SnapshotOf(orders, ids[1..]);
    }
  }

  lemma {:induction false} UnlistedIsUntouched(w: World, g: Gateway, id: OrderId)
    requires w.pass.reading == None && forall i :: 0 <= i < |w.pass.todo| ==> w.pass.todo[i].0 != id
    ensures Eventual(RestOfPass(w, g), id) == Eventual(w, id)
    decreases |w.pass.todo|
  {
    if w.pass.todo != [] {
      VisitLeavesOthers(w, g, id, 0);
      UnlistedIsUntouched(VisitOrder(w, g), g, id);
    }
  }

  /** A complete pass, whatever was already on the queue, takes a listed order to the greater of what it
      was going to hold and the fill evidence the pass used, exactly when the queue did not carry a fill
      to another quantity. */
  lemma {:induction false} CompletePassIsExact(w: World, g: Gateway, k: nat)
    requires w.pass.reading == None && k < |w.pass.todo| && Distinct(w.pass.todo)
    requires InStep(w, w.pass.todo[k].0)
    ensures var (id, o) := w.pass.todo[k]; var w', n := RestOfPass(w, g), FillEvidence(id, o, g);
            && Eventual(w', id) >= Max(Eventual(w, id), n)
            && (Eventual(w', id) == Max(Eventual(w, id), n) <==> !AnotherOnItsWay(w, id, n))
    decreases |w.pass.todo|
  {
    var (id, o) := w.pass.todo[k];
    var w' := VisitOrder(w, g);
    if k == 0 {
      VisitedOrder(w, g);
      UnlistedIsUntouched(w', g, id);
    } else {
      VisitLeavesOthers(w, g, id, FillEvidence(id, o, g));
      CompletePassIsExact(w', g, k - 1);
    }
  }

  /** After a complete pass whose events drain, a listed and settled order's portfolio quantity is the
      greater of what was held and the fill evidence the pass used. */
  lemma CompletePassRepairs(w: World, g: Gateway, k: nat)
    requires w.pass.reading == None && k < |w.pass.todo| && Distinct(w.pass.todo)
    requires Settled(w, w.pass.todo[k].0)
    ensures var (id, o) := w.pass.todo[k];
            Eventual(RestOfPass(w, g), id) == Max(Held(w, id), FillEvidence(id, o, g))
  {
    var (id, o) := w.pass.todo[k];
    assert OneStepUp(w.fills, w.queue, id, 0);
    EventualWhenSettled(w, id);
    CompletePassIsExact(w, g, k);
  }

  /** The cumulative fill that a row and the broker's records show for a listed order: a FILLED row's own, else
      that of the broker's answer, and none without an answer. */
  ghost predicate Shows(g: Gateway, id: OrderId, o: Order, n: nat) {
    if o.status == Filled then n == o.filled
    else (exists a :: Answers(g, id, o, a) && n == a.filled) || (n == 0 && forall a :: !Answers(g, id, o, a))
  }

  lemma EvidenceShows(g: Gateway, id: OrderId, o: Order, n: nat)
    ensures Shows(g, id, o, n) <==> n == FillEvidence(id, o, g)
  {
    forall a
      ensures EvidenceFor(id, o, g) == Some(a) <==> Answers(g, id, o, a)
    {
      EvidenceIsTheAnswer(id, o, g, a);
    }
  }

  /** After a complete pass whose events drain, a listed and settled order's portfolio quantity is the greater
      of what was held and what the broker's own records show under the order's broker id, its client
      reference or its trades. */
  lemma PassFollowsBroker(w: World, g: Gateway, k: nat, n: nat)
    requires w.pass.reading == None && k < |w.pass.todo| && Distinct(w.pass.todo)
    requires Settled(w, w.pass.todo[k].0) && Shows(g, w.pass.todo[k].0, w.pass.todo[k].1, n)
    ensures Eventual(RestOfPass(w, g), w.pass.todo[k].0) == Max(Held(w, w.pass.todo[k].0), n)
  {
    EvidenceShows(g, w.pass.todo[k].0, w.pass.todo[k].1, n);
    CompletePassRepairs(w, g, k);
  }

  /** A crash may lose any number of queued fills; restarting the list from the durable tables and completing
      one pass over records that show the broker's cumulative fill brings the portfolio to it. */
  lemma CrashThenPassRestores(steps: seq<Step>, ids: seq<OrderId>, g: Gateway, k: nat)
    requires Valid(START, steps)
    requires var w := After(START, steps); k < |Snapshot(w.orders, ids)| && Distinct(Snapshot(w.orders, ids))
    requires var w := After(START, steps); var (id, o) := Snapshot(w.orders, ids)[k];
             NeverStale(START, steps, id) && Shows(g, id, o, BrokerFilled(w, id))
    ensures var w := After(START, steps); var id := Snapshot(w.orders, ids)[k].0;
            Eventual(RestOfPass(Next(Next(w, Crash), ListOrders(ids)), g), id) == BrokerFilled(w, id)
  {
    var w := After(START, steps);
    var (id, o) := Snapshot(w.orders, ids)[k];
    SnapshotOf(w.orders, ids);
    PortfolioNeverExceedsBroker(steps, id);
    var listed := Next(Next(w, Crash), ListOrders(ids));
    assert listed.queue == [] && listed.fills == w.fills && listed.pass == Pass(Snapshot(w.orders, ids), None);
    PassFollowsBroker(listed, g, k, BrokerFilled(w, id));
  }

  // ---- what goes wrong when a second pass does not wait for the first one's events ----

  /** A broker that finds the order by its client id and reports `n` filled. */
  function Reporting(id: OrderId, n: nat): Gateway {
    Gateway(map[], map[id := Response("OPEN", None, n, 0.0)], [], {})
  }

  lemma ReportedEvidence(id: OrderId, o: Order, n: nat)
    requires o.status == Submitting && o.brokerId == None
    ensures FillEvidence(id, o, Reporting(id, n)) == n
  {
  }

  lemma AnotherFillQueued(queue: seq<Event>, updates: seq<Event>, f: Fill, m: nat)
    requires !Queued(queue, f.orderId, m) && f.cumulative != m
    requires forall i :: 0 <= i < |updates| ==> updates[i].OrderUpdate?
    ensures !Queued(queue + updates + [TradeFill(f)], f.orderId, m)
  {
  }

  lemma FirstOfTwo(w: World, w': World, updates: seq<Event>, id: OrderId, n: nat, m: nat)
    requires Settled(w, id) && Held(w, id) < n < m && w'.fills == w.fills
    requires w'.queue == w.queue + updates + [TradeFill(Fill(id, n, n - Held(w, id)))]
    requires forall i :: 0 <= i < |updates| ==> updates[i].OrderUpdate?
    ensures Eventual(w', id) == n && !Stored(w'.fills, id, m) && !Queued(w'.queue, id, m)
  {
    EventualWhenSettled(w, id);
    SettledMeansUnknown(w, id, n);
    SettledMeansUnknown(w, id, m);
    DrainFill(w, updates, id, n, Held(w, id));
    AnotherFillQueued(w.queue, updates, Fill(id, n, n - Held(w, id)), m);
  }

  lemma SecondOfTwo(w: World, updates: seq<Event>, id: OrderId, n: nat, m: nat, held: int)
    requires Eventual(w, id) == n && !Stored(w.fills, id, m) && !Queued(w.queue, id, m)
    requires forall i :: 0 <= i < |updates| ==> updates[i].OrderUpdate?
    ensures Executed(Drained(w.fills, w.queue + updates + [TradeFill(Fill(id, m, m - held))]), id) == n + m - held
  {
    DrainFill(w, updates, id, m, held);
  }

  /** Two fills on their way to a settled portfolio, both counted from what it holds, add up. */
  lemma TwoFills(w: World, w': World, u1: seq<Event>, u2: seq<Event>, id: OrderId, n: nat, m: nat)
    requires Settled(w, id) && Held(w, id) < n < m && w'.fills == w.fills
    requires w'.queue == w.queue + u1 + [TradeFill(Fill(id, n, n - Held(w, id)))]
    requires forall i :: 0 <= i < |u1| ==> u1[i].OrderUpdate?
    requires forall i :: 0 <= i < |u2| ==> u2[i].OrderUpdate?
    ensures Executed(Drained(w'.fills, w'.queue + u2 + [TradeFill(Fill(id, m, m - Held(w, id)))]), id) == n + m - Held(w, id)
  {
    FirstOfTwo(w, w', u1, id, n, m);
    SecondOfTwo(w', u2, id, n, m, Held(w, id));
  }

  lemma ReportedVisit(w: World, id: OrderId, o: Order, n: nat) returns (w': World, updates: seq<Event>)
    requires 0 <= Held(w, id) < n && o.status == Submitting && o.brokerId == None
    ensures w' == RestOfPass(w.(pass := Pass([(id, o)], None)), Reporting(id, n))
    ensures w'.fills == w.fills && w'.queue == w.queue + updates + [TradeFill(Fill(id, n, n - Held(w, id)))]
    ensures forall i :: 0 <= i < |updates| ==> updates[i].OrderUpdate?
  {
    var w0 := w.(pass := Pass([(id, o)], None));
    ReportedEvidence(id, o, n);
    updates := VisitPublishes(w0, Reporting(id, n));
    w' := VisitOrder(w0, Reporting(id, n));
  }

  /** Two passes with growing broker fills and no delivery in between leave the portfolio above
      the broker: the second difference is taken to a quantity that is already on its way. */
  lemma SecondPassOvercounts(w: World, id: OrderId, o: Order, n: nat, m: nat)
    requires w.pass == Pass([], None) && Settled(w, id) && o.status == Submitting && o.brokerId == None && Held(w, id) < n < m
    ensures var first := RestOfPass(w.(pass := Pass([(id, o)], None)), Reporting(id, n));
            var second := RestOfPass(first.(pass := Pass([(id, o)], None)), Reporting(id, m));
            Eventual(second, id) == n + m - Held(w, id) > m
  {
    var first, u1 := ReportedVisit(w, id, o, n);
    var second, u2 := ReportedVisit(first, id, o, m);
    TwoFills(w, first, u1, u2, id, n, m);
  }

  lemma ClearedLiveOrder(id: OrderId, o: Order) returns (steps: seq<Step>)
    requires o.status == Validating && o.filled == 0 && o.remaining == o.quantity && o.mode == Live
    ensures Valid(START, steps)
    ensures exists c :: After(START, steps)
                        == START.(orders := map[id := o.(status := Approved)], processed := {id}, dispatcher := Cleared(id, c))
  {
    var checked := ApprovedAndChecked(id, o);
    Extend(START, checked, Boundary(Dispatcher, true, true));
    steps := checked + [Boundary(Dispatcher, true, true)];
    assert After(START, steps) == START.(orders := map[id := o.(status := Approved)], processed := {id},
                                         dispatcher := After(START, steps).dispatcher);
  }

  lemma ReservedLiveOrder(id: OrderId, o: Order) returns (steps: seq<Step>)
    requires o.status == Validating && o.filled == 0 && o.remaining == o.quantity && o.mode == Live
    ensures Valid(START, steps)
    ensures var w, reserved := After(START, steps), o.(status := Submitting);
            && w.orders == map[id := reserved] && w.fills == [] && w.queue == [] && w.submissions == []
            && w.pass == Pass([], None) && w.brokerFilled == map[]
            && w.dispatcher.Reserved? && w.dispatcher.orderId == id && w.dispatcher.order == reserved
  {
    var cleared := ClearedLiveOrder(id, o);
    Extend(START, cleared, Reserve(Dispatcher));
    steps := cleared + [Reserve(Dispatcher)];
  }

  lemma PlacedLiveOrder(id: OrderId, o: Order) returns (steps: seq<Step>)
    requires o.status == Validating && o.filled == 0 && o.remaining == o.quantity
    requires o.mode == Live && o.routable
    ensures Valid(START, steps)
    ensures var w := After(START, steps);
            && w.orders == map[id := o.(status := Submitting)] && w.fills == [] && w.queue == []
            && w.pass == Pass([], None) && w.brokerFilled == map[]
            && |w.submissions| == 1 && w.submissions[0].orderId == id
  {
    steps := ReservedLiveOrder(id, o);
    Extend(START, steps, Place(Dispatcher, None));
    steps := steps + [Place(Dispatcher, None)];
  }

  lemma SettleOne(steps: seq<Step>, id: OrderId, o: Order, n: nat) returns (steps': seq<Step>, updates: seq<Event>)
    requires Valid(START, steps)
    requires var w := After(START, steps); w.pass == Pass([], Some(Reading(id, o, 0))) && BrokerFilled(w, id) == n > 0
    ensures Valid(START, steps')
    ensures forall i :: 0 <= i < |updates| ==> updates[i].OrderUpdate?
    ensures var w, w' := After(START, steps), After(START, steps');
            w' == w.(pass := Pass([], None), queue := w.queue + updates + [TradeFill(Fill(id, n, n - 0))])
  {
    var a := Response("OPEN", None, n, 0.0);
    Extend(START, steps, Settle(Some(a)));
    steps' := steps + [Settle(Some(a))];
    updates := Repair(Reading(id, o, 0), Some(a))[..1];
    assert Repair(Reading(id, o, 0), Some(a)) == updates + [TradeFill(Fill(id, n, n))];
    assert forall q: seq<Event> :: q + (updates + [TradeFill(Fill(id, n, n))]) == q + updates + [TradeFill(Fill(id, n, n))];
  }

  /** One uninterrupted pass over one order the broker reports `n` filled of. */
  lemma OnePass(steps: seq<Step>, id: OrderId, o: Order, n: nat) returns (steps': seq<Step>, updates: seq<Event>)
    requires Valid(START, steps)
    requires var w := After(START, steps);
             && w.orders == map[id := o] && o.mode == Live && o.status == Submitting && w.pass == Pass([], None)
             && |w.submissions| == 1 && w.submissions[0].orderId == id && BrokerFilled(w, id) <= n && Held(w, id) == 0 < n
    ensures Valid(START, steps')
    ensures forall i :: 0 <= i < |updates| ==> updates[i].OrderUpdate?
    ensures var w, w' := After(START, steps), After(START, steps');
            w' == w.(brokerFilled := w.brokerFilled[id := n], queue := w.queue + updates + [TradeFill(Fill(id, n, n - 0))])
  {
    var w, a := After(START, steps), Response("OPEN", None, n, 0.0);
    assert w.submissions[0] in w.submissions;
    Extend(START, steps, BrokerFill(id, n));
    var s1 := steps + [BrokerFill(id, n)];
    Extend(START, s1, ListOrders([id]));
    var s2 := s1 + [ListOrders([id])];
    assert Snapshot(w.orders, [id]) == [(id, o)] + Snapshot(w.orders, [id][1..]);
    assert After(START, s2).pass == Pass([(id, o)], None);
    Extend(START, s2, ReadHeld);
    var s3 := s2 + [ReadHeld];
    steps', updates := SettleOne(s3, id, o, n);
  }

  /** Such runs exist: from an empty start, a LIVE order filled to `n` and then `m` while no event
      is delivered ends with `n + m` on its way to the portfolio. */
  lemma StaleRunOvercounts(id: OrderId, o: Order, n: nat, m: nat)
    requires o.status == Validating && o.filled == 0 && o.remaining == o.quantity && o.mode == Live && o.routable
    requires 0 < n < m
    ensures exists steps :: Valid(START, steps) && Eventual(After(START, steps), id) == n + m > BrokerFilled(After(START, steps), id) == m
  {
    var s0 := PlacedLiveOrder(id, o);
    var o' := o.(status := Submitting);
    var s1, u1 := OnePass(s0, id, o', n);
    var s2, u2 := OnePass(s1, id, o', m);
    TwoFills(After(START, s0), After(START, s1), u1, u2, id, n, m);
  }
}
