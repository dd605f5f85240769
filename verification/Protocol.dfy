/** The crash-tolerant submission protocol as a transition system.

    One step is one stretch of the event loop between two awaits: the dispatcher consuming an
    event, a stage of an `execute_order` call (made by the dispatcher or by start-up recovery),
    a stage of a reconciliation pass, something the broker does, or a crash. */
module Protocol {
  import opened Common
  import opened Oms
  import opened Portfolio

  datatype Event =
    | Command(orderId: OrderId)
    | OrderUpdate(update: BrokerEvent)
    | TradeFill(fill: Fill)

  datatype Response = Response(status: string, brokerId: Option<string>, filled: nat, averagePrice: real)

  datatype Clearance = Exempt | Passed

  datatype TaskId = Dispatcher | Recovery

  /** How far one `execute_order` call has got. */
  datatype Call =
    | Idle
    | Checked(orderId: OrderId, order: Order)
    | Cleared(orderId: OrderId, clearance: Clearance)
    | Reserved(orderId: OrderId, order: Order, clearance: Clearance)
    | Answered(orderId: OrderId, order: Order, reply: Option<Response>)

  datatype Reading = Reading(orderId: OrderId, order: Order, held: int)

  /** The orders a pass still has to visit and the one it is visiting. */
  datatype Pass = Pass(todo: seq<(OrderId, Order)>, reading: Option<Reading>)

  datatype Submission = Submission(orderId: OrderId, mode: TradingMode, reduceOnly: bool, clearance: Clearance)

  datatype World = World(
    orders: map<OrderId, Order>,          // oms.db
    fills: seq<Fill>,                     // portfolio.db
    queue: seq<Event>,                    // lost in a crash, as is everything down to `pass`
    processed: set<OrderId>,
    dispatcher: Call,
    recovery: Call,
    pass: Pass,
    submissions: seq<Submission>,         // every place_order the broker received
    brokerFilled: map<OrderId, nat>)      // the broker's cumulative fill

  datatype Step =
    | Submit(orderId: OrderId, order: Order)
    | Decide(orderId: OrderId, approved: bool)
    | Replay(orderId: OrderId)
    | Deliver
    | Recover(orderId: OrderId)
    | Boundary(task: TaskId, healthy: bool, authorized: bool)
    | Reserve(task: TaskId)
    | Place(task: TaskId, reply: Option<Response>)
    | Report(task: TaskId)
    | BrokerFill(orderId: OrderId, filled: nat)
    | ListOrders(ids: seq<OrderId>)
    | ReadHeld
    | Settle(answer: Option<Response>)
    | Crash

  // ---- pieces of execute_order ----

  function CallOf(w: World, t: TaskId): Call {
    if t == Dispatcher then w.dispatcher else w.recovery
  }

  function SetCall(w: World, t: TaskId, c: Call): World {
    if t == Dispatcher then w.(dispatcher := c) else w.(recovery := c)
  }

  function Publish(w: World, evs: seq<Event>): World {
    w.(queue := w.queue + evs)
  }

  /** The first lines of `execute_order`: only an APPROVED order goes on. */
  function Begin(w: World, t: TaskId, id: OrderId): World {
    if id in w.orders && w.orders[id].status == Approved
    then SetCall(w, t, Checked(id, w.orders[id]))
    else w
  }

  function FailedSafeEvent(id: OrderId, o: Order): Event {
    OrderUpdate(BrokerEvent(id, None, "FAILED_SAFE", o.filled, o.averagePrice))
  }

  /** `mark_order_submitting`, which hands an order that is already SUBMITTING to its caller. */
  function MarkSubmitting(orders: map<OrderId, Order>, id: OrderId): map<OrderId, Order> {
    if id in orders && orders[id].status == Approved
    then orders[id := orders[id].(status := Submitting)]
    else orders
  }

  function UpperCase(s: string): string {
    if s == [] then []
    else [if 'a' <= s[0] <= 'z' then (s[0] - 'a') + 'A' else s[0]] + UpperCase(s[1..])
  }

  function DashesToUnderscores(s: string): string {
    if s == [] then [] else [if s[0] == '-' then '_' else s[0]] + DashesToUnderscores(s[1..])
  }

  function NormalizeStatus(status: string): string {
    var normalized := DashesToUnderscores(UpperCase(if status == "" then "UNKNOWN" else status));
    if normalized == "COMPLETE" || normalized == "COMPLETED" then "FILLED"
    else if normalized == "PARTIAL" || normalized == "PARTIALLY FILLED" then "PARTIALLY_FILLED"
    else normalized
  }

  /** What the call publishes once `place_order` returned (or raised). */
  function Outcome(id: OrderId, o: Order, reply: Option<Response>): seq<Event> {
    match reply
    case None => [OrderUpdate(BrokerEvent(id, None, "UNKNOWN", o.filled, o.averagePrice))]
    case Some(r) =>
      var status := NormalizeStatus(r.status);
      [OrderUpdate(BrokerEvent(id, r.brokerId, status, r.filled, r.averagePrice))]
      + (if status == "FILLED" && r.filled > 0 then [TradeFill(Fill(id, r.filled, r.filled))] else [])
  }

  // ---- pieces of reconcile_live_orders ----

  predicate Reconcilable(o: Order) {
    o.mode == Live && o.status in {Submitting, SubmissionUnknown, Acknowledged, Open, PartiallyFilled, Filled}
  }

  function Snapshot(orders: map<OrderId, Order>, ids: seq<OrderId>): seq<(OrderId, Order)> {
    if ids == [] then []
    else (if ids[0] in orders && Reconcilable(orders[ids[0]]) then [(ids[0], orders[ids[0]])] else [])
         + Snapshot(orders, ids[1..])
  }

  /** A fill event for whatever of `filled` the portfolio does not hold yet. */
  function MissingFill(id: OrderId, filled: nat, held: int): seq<Event> {
    if filled > held then [TradeFill(Fill(id, filled, filled - held))] else []
  }

  function Repair(r: Reading, answer: Option<Response>): seq<Event> {
    match answer
    case None => []
    case Some(a) =>
      [OrderUpdate(BrokerEvent(r.orderId, if a.brokerId.Some? then a.brokerId else r.order.brokerId,
                               NormalizeStatus(a.status), a.filled, a.averagePrice))]
      + MissingFill(r.orderId, a.filled, r.held)
  }

  // ---- the transition system ----

  function BrokerFilled(w: World, id: OrderId): nat {
    if id in w.brokerFilled then w.brokerFilled[id] else 0
  }

  ghost predicate Enabled(w: World, step: Step) {
    match step
    case Submit(id, o) => id !in w.orders && o.status == Validating && o.filled == 0 && o.remaining == o.quantity
    case Decide(id, _) => id in w.orders
    case Replay(id) => true
    case Deliver => w.queue != [] && w.dispatcher == Idle
    case Recover(id) => w.recovery == Idle
    case Boundary(t, _, _) => CallOf(w, t).Checked?
    case Reserve(t) => CallOf(w, t).Cleared?
    // A LIVE acknowledgement carries no fill.
    case Place(t, reply) =>
      CallOf(w, t).Reserved? && (CallOf(w, t).order.mode == Live && reply.Some? ==> reply.value.filled == 0)
    case Report(t) => CallOf(w, t).Answered?
    // The broker only fills what it received, and its cumulative fill never decreases.
    case BrokerFill(id, n) => BrokerFilled(w, id) <= n && exists s :: s in w.submissions && s.orderId == id
    case ListOrders(ids) => w.pass == Pass([], None)
    case ReadHeld => w.pass.todo != [] && w.pass.reading == None
    // The broker never reports more than it filled.
    case Settle(answer) =>
      w.pass.reading.Some? && (answer.Some? ==> answer.value.filled <= BrokerFilled(w, w.pass.reading.value.orderId))
    case Crash => true
  }

  function DeliverHead(w: World): World
    requires w.queue != []
  {
    var rest := w.(queue := w.queue[1..]);
    match w.queue[0]
    case Command(id) =>
      if id in w.processed then rest else Begin(rest.(processed := w.processed + {id}), Dispatcher, id)
    case OrderUpdate(u) =>
      if u.orderId in w.orders
      then rest.(orders := w.orders[u.orderId := ApplyBrokerEvent(w.orders[u.orderId], u)])
      else rest
    case TradeFill(f) => rest.(fills := ApplyFill(w.fills, f))
  }

  function PassBoundary(w: World, t: TaskId, healthy: bool, authorized: bool): World
    requires CallOf(w, t).Checked?
  {
    var Checked(id, o) := CallOf(w, t);
    if o.mode == Live && !o.reduceOnly then
      if healthy && authorized then SetCall(w, t, Cleared(id, Passed))
      else SetCall(Publish(w, [FailedSafeEvent(id, o)]), t, Idle)
    else SetCall(w, t, Cleared(id, Exempt))
  }

  function ReserveOrder(w: World, t: TaskId): World
    requires CallOf(w, t).Cleared?
  {
    var Cleared(id, clearance) := CallOf(w, t);
    var orders := MarkSubmitting(w.orders, id);
    if id in orders && orders[id].status == Submitting
    then SetCall(w.(orders := orders), t, Reserved(id, orders[id], clearance))
    else SetCall(w, t, Idle)
  }

  function PlaceOrder(w: World, t: TaskId, reply: Option<Response>): World
    requires CallOf(w, t).Reserved?
  {
    var Reserved(id, o, clearance) := CallOf(w, t);
    if o.routable
    then SetCall(w.(submissions := w.submissions + [Submission(id, o.mode, o.reduceOnly, clearance)]),
                 t, Answered(id, o, reply))
    else SetCall(Publish(w, [FailedSafeEvent(id, o)]), t, Idle)
  }

  function ReadPortfolio(w: World): World
    requires w.pass.todo != []
  {
    var (id, o) := w.pass.todo[0];
    var held := Executed(w.fills, id);
    if o.status == Filled
    then Publish(w, MissingFill(id, o.filled, held)).(pass := Pass(w.pass.todo[1..], None))
    else w.(pass := Pass(w.pass.todo[1..], Some(Reading(id, o, held))))
  }

  function Next(w: World, step: Step): World
    requires Enabled(w, step)
  {
    match step
    case Submit(id, o) => w.(orders := w.orders[id := o])
    case Decide(id, approved) =>
      if w.orders[id].status != Validating then w
      else if approved then Publish(w.(orders := w.orders[id := w.orders[id].(status := Approved)]), [Command(id)])
      else w.(orders := w.orders[id := w.orders[id].(status := RiskRejected)])
    case Replay(id) => Publish(w, [Command(id)])
    case Deliver => DeliverHead(w)
    case Recover(id) => Begin(w, Recovery, id)
    case Boundary(t, healthy, authorized) => PassBoundary(w, t, healthy, authorized)
    case Reserve(t) => ReserveOrder(w, t)
    case Place(t, reply) => PlaceOrder(w, t, reply)
    case Report(t) =>
      var Answered(id, o, reply) := CallOf(w, t);
      SetCall(Publish(w, Outcome(id, o, reply)), t, Idle)
    case BrokerFill(id, n) => w.(brokerFilled := w.brokerFilled[id := n])
    case ListOrders(ids) => w.(pass := Pass(Snapshot(w.orders, ids), None))
    case ReadHeld => ReadPortfolio(w)
    case Settle(answer) =>
      Publish(w, Repair(w.pass.reading.value, answer)).(pass := Pass(w.pass.todo, None))
    case Crash => w.(queue := [], processed := {}, dispatcher := Idle, recovery := Idle, pass := Pass([], None))
  }

  const START := World(map[], [], [], {}, Idle, Idle, Pass([], None), [], map[])

  ghost function After(w: World, steps: seq<Step>): World
    requires Valid(w, steps)
    decreases |steps|, 1
  {
    if steps == [] then w else Next(After(w, steps[..|steps| - 1]), steps[|steps| - 1])
  }

  ghost predicate Valid(w: World, steps: seq<Step>)
    decreases |steps|, 0
  {
    steps == [] || (Valid(w, steps[..|steps| - 1]) && Enabled(After(w, steps[..|steps| - 1]), steps[|steps| - 1]))
  }

  lemma Extend(w: World, steps: seq<Step>, step: Step)
    requires Valid(w, steps) && Enabled(After(w, steps), step)
    ensures Valid(w, steps + [step]) && After(w, steps + [step]) == Next(After(w, steps), step)
  {
    assert (steps + [step])[..|steps|] == steps;
  }

  /** Steps that touch neither the orders, nor a call, nor the broker's submissions. */
  ghost predicate Quiet(step: Step) {
    step.Replay? || step.BrokerFill? || step.ListOrders? || step.ReadHeld? || step.Settle?
  }

  lemma QuietStep(w: World, step: Step)
    requires Enabled(w, step) && Quiet(step)
    ensures var w' := Next(w, step);
            && w'.orders == w.orders && w'.submissions == w.submissions
            && w'.dispatcher == w.dispatcher && w'.recovery == w.recovery
  {
  }

  lemma UpdateFollowsTable(o: Order, u: BrokerEvent)
    ensures var o' := ApplyBrokerEvent(o, u); o'.status == o.status || CanTransition(o.status, o'.status)
  {
  }

  /** Whatever happens, in whatever order: an order that exists stays, its status only changes along an edge of the
      state table, and its terms do not change. */
  lemma StepFollowsTable(w: World, step: Step, id: OrderId)
    requires Enabled(w, step) && id in w.orders
    ensures var w' := Next(w, step);
            && id in w'.orders
            && var o, o' := w.orders[id], w'.orders[id];
               && (o'.status == o.status || CanTransition(o.status, o'.status))
               && o'.quantity == o.quantity && o'.mode == o.mode && o'.reduceOnly == o.reduceOnly && o'.price == o.price
  {
    if Quiet(step) {
      QuietStep(w, step);
    } else if step.Deliver? && w.queue[0].OrderUpdate? {
      UpdateFollowsTable(w.orders[id], w.queue[0].update);
    }
  }

  // ---- the start of a run: one order approved and read by the dispatcher ----

  lemma Approval(id: OrderId, o: Order) returns (steps: seq<Step>)
    requires o.status == Validating && o.filled == 0 && o.remaining == o.quantity
    ensures steps == [Submit(id, o), Decide(id, true)] && Valid(START, steps)
    ensures After(START, steps) == START.(orders := map[id := o.(status := Approved)], queue := [Command(id)])
  {
    Extend(START, [], Submit(id, o));
    steps := [] + [Submit(id, o)];
    Extend(START, steps, Decide(id, true));
    steps := steps + [Decide(id, true)];
  }

  lemma ApprovedAndChecked(id: OrderId, o: Order) returns (steps: seq<Step>)
    requires o.status == Validating && o.filled == 0 && o.remaining == o.quantity
    ensures steps == [Submit(id, o), Decide(id, true), Deliver] && Valid(START, steps)
    ensures var approved := o.(status := Approved);
            After(START, steps) == START.(orders := map[id := approved], processed := {id}, dispatcher := Checked(id, approved))
  {
    steps := Approval(id, o);
    Extend(START, steps, Deliver);
    steps := steps + [Deliver];
  }
}
