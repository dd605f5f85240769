/** The execution service as it runs when nothing interleaves: mutable tables, a bus, and the
    loops over orders, each proved equal to steps of the protocol. */
module ExecutionService {
  import opened Common
  import opened Oms
  import opened Portfolio
  import opened Protocol
  import opened Evidence
  import opened FillConservation
  import opened SingleSubmission

  /** What the outside answers during one `execute_order` call. */
  datatype Surroundings = Surroundings(healthy: bool, authorized: bool, reply: Option<Response>)

  function RequestFor(id: OrderId, o: Order): Submission {
    Submission(id, o.mode, o.reduceOnly, if o.mode == Live && !o.reduceOnly then Passed else Exempt)
  }

  /** The effect of one `execute_order` call with nothing interleaved. */
  function ExecuteCall(w: World, id: OrderId, s: Surroundings): World {
    if id !in w.orders || w.orders[id].status != Approved then w
    else
      var o := w.orders[id];
      if o.mode == Live && !o.reduceOnly && !(s.healthy && s.authorized) then Publish(w, [FailedSafeEvent(id, o)])
      else
        var o' := o.(status := Submitting);
        var reserved := w.(orders := w.orders[id := o']);
        if !o.routable then Publish(reserved, [FailedSafeEvent(id, o')])
        else Publish(reserved.(submissions := w.submissions + [RequestFor(id, o')]), Outcome(id, o', s.reply))
  }

  /** Whether the call submits: an APPROVED order that the boundary lets through and for which a
      request can be built. */
  predicate Submits(w: World, id: OrderId, s: Surroundings) {
    && id in w.orders && w.orders[id].status == Approved && w.orders[id].routable
    && (w.orders[id].mode != Live || w.orders[id].reduceOnly || (s.healthy && s.authorized))
  }

  lemma FinishCall(w: World, steps: seq<Step>, id: OrderId, s: Surroundings) returns (steps': seq<Step>)
    requires w.recovery == Idle && id in w.orders && w.orders[id].status == Approved
    requires w.orders[id].mode == Live && s.reply.Some? ==> s.reply.value.filled == 0
    requires w.orders[id].mode == Live && !w.orders[id].reduceOnly ==> s.healthy && s.authorized
    requires Valid(w, steps)
    requires After(w, steps) == w.(recovery := Cleared(id, RequestFor(id, w.orders[id]).clearance))
    ensures Valid(w, steps') && After(w, steps') == ExecuteCall(w, id, s)
  {
    Extend(w, steps, Reserve(Recovery));
    steps' := steps + [Reserve(Recovery)];
    Extend(w, steps', Place(Recovery, s.reply));
    steps' := steps' + [Place(Recovery, s.reply)];
    if w.orders[id].routable {
      Extend(w, steps', Report(Recovery));
      steps' := steps' + [Report(Recovery)];
    }
  }

  /** The call is a run of the protocol: its stages, taken by the recovery task without pause,
      end in the state the call leaves. */
  lemma CallIsProtocolRun(w: World, id: OrderId, s: Surroundings) returns (steps: seq<Step>)
    requires w.recovery == Idle
    requires id in w.orders && w.orders[id].mode == Live && s.reply.Some? ==> s.reply.value.filled == 0
    ensures Valid(w, steps) && After(w, steps) == ExecuteCall(w, id, s)
  {
    steps := [];
    Extend(w, steps, Recover(id));
    steps := steps + [Recover(id)];
    if id in w.orders && w.orders[id].status == Approved {
      Extend(w, steps, Boundary(Recovery, s.healthy, s.authorized));
      steps := steps + [Boundary(Recovery, s.healthy, s.authorized)];
      if After(w, steps).recovery.Cleared? {
        steps := FinishCall(w, steps, id, s);
      }
    }
  }

  /** An undisturbed call submits exactly one request or none, says at least one thing on the
      bus whenever it met an APPROVED order, and touches no other order. */
  lemma ExecuteCallEffect(w: World, id: OrderId, s: Surroundings, other: OrderId)
    ensures var w' := ExecuteCall(w, id, s);
            && w'.fills == w.fills
            && Count(w'.submissions, other) == Count(w.submissions, other) + (if Submits(w, id, s) && other == id then 1 else 0)
            && (other != id && other in w.orders ==> other in w'.orders && w'.orders[other] == w.orders[other])
            && (id in w.orders && w.orders[id].status == Approved <==> |w'.queue| > |w.queue|)
  {
    if Submits(w, id, s) {
      CountAppend(w.submissions, RequestFor(id, w.orders[id].(status := Submitting)), other);
    }
  }

  /** A second undisturbed call for the same order never submits. */
  lemma RepeatedCallIsHarmless(w: World, id: OrderId, s: Surroundings, s': Surroundings)
    requires Submits(w, id, s)
    ensures ExecuteCall(ExecuteCall(w, id, s), id, s') == ExecuteCall(w, id, s)
  {
  }

  /** Start-up recovery: one call for each listed order that was APPROVED when listed. */
  function RecoverAll(w: World, listed: seq<(OrderId, Order)>, s: OrderId -> Surroundings): World
  {
    if listed == [] then w
    else
      var before := RecoverAll(w, listed[..|listed| - 1], s);
      var (id, o) := listed[|listed| - 1];
      if o.status == Approved then ExecuteCall(before, id, s(id)) else before
  }

  lemma {:induction false} RecoveryKeepsUnlisted(w: World, listed: seq<(OrderId, Order)>, s: OrderId -> Surroundings, id: OrderId)
    requires id in w.orders
    requires forall i :: 0 <= i < |listed| ==> listed[i].0 != id
    ensures var w' := RecoverAll(w, listed, s);
            id in w'.orders && w'.orders[id] == w.orders[id] && Count(w'.submissions, id) == Count(w.submissions, id)
  {
    if listed != [] {
      var n := |listed| - 1;
      RecoveryKeepsUnlisted(w, listed[..n], s, id);
      ExecuteCallEffect(RecoverAll(w, listed[..n], s), listed[n].0, s(listed[n].0), id);
    }
  }

  lemma LastListedResumes(w: World, before: World, id: OrderId, s: Surroundings)
    requires id in w.orders && id in before.orders && before.orders[id] == w.orders[id]
    requires Count(before.submissions, id) == Count(w.submissions, id)
    ensures var w' := if w.orders[id].status == Approved then ExecuteCall(before, id, s) else before;
            Count(w'.submissions, id) == Count(w.submissions, id) + if Submits(w, id, s) then 1 else 0
  {
    ExecuteCallEffect(before, id, s, id);
  }

  /** Recovery resumes each order that was left APPROVED exactly once, and no other. */
  lemma {:induction false} RecoveryResumesApproved(w: World, listed: seq<(OrderId, Order)>, s: OrderId -> Surroundings, k: nat)
    requires Distinct(listed) && k < |listed|
    requires forall i :: 0 <= i < |listed| ==> listed[i].0 in w.orders && w.orders[listed[i].0] == listed[i].1
    ensures var id := listed[k].0; var w' := RecoverAll(w, listed, s);
            Count(w'.submissions, id) == Count(w.submissions, id) + if Submits(w, id, s(id)) then 1 else 0
  {
    var n := |listed| - 1;
    var (last, o) := listed[n];
    var before := RecoverAll(w, listed[..n], s);
    if k < n {
      RecoveryResumesApproved(w, listed[..n], s, k);
      ExecuteCallEffect(before, last, s(last), listed[k].0);
    } else {
      RecoveryKeepsUnlisted(w, listed[..n], s, last);
      LastListedResumes(w, before, last, s(last));
    }
  }

  /** What a pass publishes about one order, given what the portfolio holds of it. */
  function VisitEvents(o: Order, id: OrderId, held: int, g: Gateway): seq<Event> {
    if o.status == Filled then MissingFill(id, o.filled, held)
    else Repair(Reading(id, o, held), EvidenceFor(id, o, g))
  }

  lemma VisitIs(w: World, todo: seq<(OrderId, Order)>, g: Gateway)
    requires w.pass.reading == None && todo != []
    ensures var (id, o) := todo[0]; var w' := Publish(w, VisitEvents(o, id, Executed(w.fills, id), g));
            RestOfPass(w'.(pass := Pass(todo[1..], None)), g) == RestOfPass(w.(pass := Pass(todo, None)), g)
  {
    var (id, o) := todo[0];
    assert VisitOrder(w.(pass := Pass(todo, None)), g)
        == Publish(w, VisitEvents(o, id, Executed(w.fills, id), g)).(pass := Pass(todo[1..], None));
  }

  // ---- the dispatcher ----

  predicate Commanded(queue: seq<Event>, id: OrderId) {
    exists i :: 0 <= i < |queue| && queue[i] == Command(id)
  }

  function Commands(queue: seq<Event>): nat {
    if queue == [] then 0
    else Commands(queue[..|queue| - 1]) + if queue[|queue| - 1].Command? then 1 else 0
  }

  lemma {:induction false} CommandsSplit(a: seq<Event>, b: seq<Event>)
    ensures Commands(a + b) == Commands(a) + Commands(b)
  {
    if b == [] {
      assert a + b == a;
    } else {
      CommandsSplit(a, b[..|b| - 1]);
      assert (a + b)[..|a + b| - 1] == a + b[..|b| - 1];
    }
  }

  lemma {:induction false} RecordsOnly(evs: seq<Event>)
    requires forall i :: 0 <= i < |evs| ==> !evs[i].Command?
    ensures Commands(evs) == 0
  {
    if evs != [] {
      RecordsOnly(evs[..|evs| - 1]);
    }
  }

  predicate FillsAtOnce(s: Surroundings) {
    s.reply.Some? && s.reply.value.filled > 0
  }

  /** A call publishes no command, updates and fills of its own order only, and fills only if the
      broker's answer says so. */
  lemma CallPublishes(w: World, id: OrderId, s: Surroundings) returns (evs: seq<Event>)
    ensures var w' := ExecuteCall(w, id, s);
            w'.queue == w.queue + evs && w'.fills == w.fills && w'.processed == w.processed
    ensures forall i :: 0 <= i < |evs| ==> !evs[i].Command?
    ensures forall i :: 0 <= i < |evs| && evs[i].OrderUpdate? ==> evs[i].update.orderId == id
    ensures forall i :: 0 <= i < |evs| && evs[i].TradeFill? ==> evs[i].fill.orderId == id && FillsAtOnce(s)
  {
    evs := ExecuteCall(w, id, s).queue[|w.queue|..];
    if ExecuteCall(w, id, s) == w {
      assert w.queue == w.queue + [];
    }
  }

  /** One iteration of the dispatcher loop. */
  function DispatchOne(w: World, s: OrderId -> Surroundings): World
    requires w.queue != []
  {
    match w.queue[0]
    case Command(id) =>
      var rest := w.(queue := w.queue[1..]);
      if id in w.processed then rest else ExecuteCall(rest.(processed := w.processed + {id}), id, s(id))
    case _ => DeliverHead(w)
  }

  lemma DispatchShrinks(w: World, s: OrderId -> Surroundings)
    requires w.queue != []
    ensures var q := DispatchOne(w, s).queue;
            Commands(q) < Commands(w.queue) || (Commands(q) == Commands(w.queue) && |q| < |w.queue|)
  {
    CommandsSplit([w.queue[0]], w.queue[1..]);
    assert w.queue == [w.queue[0]] + w.queue[1..];
    assert Commands([w.queue[0]]) == Commands([]) + if w.queue[0].Command? then 1 else 0;
    if w.queue[0].Command? && w.queue[0].orderId !in w.processed {
      var id := w.queue[0].orderId;
      var evs := CallPublishes(w.(queue := w.queue[1..], processed := w.processed + {id}), id, s(id));
      CommandsSplit(w.queue[1..], evs);
      RecordsOnly(evs);
    }
  }

  /** The dispatcher loop until the queue is empty. */
  function Dispatched(w: World, s: OrderId -> Surroundings): (w': World)
    ensures w'.queue == []
    decreases Commands(w.queue), |w.queue|
  {
    if w.queue == [] then w
    else
      DispatchShrinks(w, s);
      Dispatched(DispatchOne(w, s), s)
  }

  lemma DispatchKeepsEventual(w: World, s: OrderId -> Surroundings, id: OrderId)
    requires w.queue != [] && (Commanded(w.queue, id) ==> !FillsAtOnce(s(id)))
    ensures var w' := DispatchOne(w, s);
            Eventual(w', id) == Eventual(w, id) && (Commanded(w'.queue, id) ==> Commanded(w.queue, id))
  {
    var tail := w.queue[1..];
    DrainFirst(w.fills, w.queue);
    match w.queue[0]
    case Command(x) =>
      assert x == id ==> Commanded(w.queue, id);
      if x !in w.processed {
        var evs := CallPublishes(w.(queue := tail, processed := w.processed + {x}), x, s(x));
        ForeignEvents(w.fills, tail, evs, id);
      }
    case _ =>
  }

  /** Draining a queue, its commands included, leaves the portfolio with what it was going to hold of every
      order that is not commanded or whose submission is not answered with a fill, as LIVE ones never are. */
  lemma {:induction false} DispatchedHolds(w: World, s: OrderId -> Surroundings, id: OrderId)
    requires Commanded(w.queue, id) ==> !FillsAtOnce(s(id))
    ensures Held(Dispatched(w, s), id) == Eventual(w, id)
    decreases Commands(w.queue), |w.queue|
  {
    if w.queue != [] {
      DispatchShrinks(w, s);
      DispatchKeepsEventual(w, s, id);
      DispatchedHolds(DispatchOne(w, s), s, id);
    }
  }

  /** Whether the queue may still make the dispatcher call for the order. */
  predicate Pending(w: World, id: OrderId) {
    Commanded(w.queue, id) && id !in w.processed
  }

  lemma DispatchSubmits(w: World, s: OrderId -> Surroundings, id: OrderId)
    requires w.queue != []
    ensures var w' := DispatchOne(w, s);
            Count(w'.submissions, id) + (if Pending(w', id) then 1 else 0)
            <= Count(w.submissions, id) + (if Pending(w, id) then 1 else 0)
  {
    match w.queue[0]
    case Command(x) =>
      assert x == id ==> Commanded(w.queue, id);
      if x !in w.processed {
        var called := w.(queue := w.queue[1..], processed := w.processed + {x});
        var evs := CallPublishes(called, x, s(x));
        ExecuteCallEffect(called, x, s(x), id);
      }
    case _ =>
  }

  /** However many duplicate commands the queue carries, draining it submits an order at most once, and not
      at all without a command or when its command was processed before. */
  lemma {:induction false} DispatchedSubmitsOnce(w: World, s: OrderId -> Surroundings, id: OrderId)
    ensures Count(Dispatched(w, s).submissions, id) <= Count(w.submissions, id) + if Pending(w, id) then 1 else 0
    decreases Commands(w.queue), |w.queue|
  {
    if w.queue != [] {
      DispatchShrinks(w, s);
      DispatchSubmits(w, s, id);
      DispatchedSubmitsOnce(DispatchOne(w, s), s, id);
    }
  }

  class ExecutionService {
    var orders: map<OrderId, Order>
    var fills: seq<Fill>
    var queue: seq<Event>
    var processed: set<OrderId>
    var submissions: seq<Submission>
    ghost const brokerFilled: map<OrderId, nat>

    ghost function State(): World
      reads this
    {
      World(orders, fills, queue, processed, Idle, Idle, Pass([], None), submissions, brokerFilled)
    }

    constructor (orders: map<OrderId, Order>, fills: seq<Fill>)
      ensures State() == World(orders, fills, [], {}, Idle, Idle, Pass([], None), [], brokerFilled)
    {
      this.orders, this.fills, queue, processed, submissions := orders, fills, [], {}, [];
    }

    method PublishEvent(e: Event)
      modifies this`queue
      ensures State() == Publish(old(State()), [e])
    {
      queue := queue + [e];
    }

    method MarkOrderSubmitting(id: OrderId) returns (order: Option<Order>)
      modifies this`orders
      ensures State() == old(State()).(orders := MarkSubmitting(old(orders), id))
      ensures order == if id in orders then Some(orders[id]) else None
    {
      if id !in orders {
        return None;
      }
      if orders[id].status == Approved {
        orders := orders[id := orders[id].(status := Submitting)];
      }
      return Some(orders[id]);
    }

    method ExecuteOrder(id: OrderId, s: Surroundings)
      modifies this
      ensures State() == ExecuteCall(old(State()), id, s)
    {
      if id !in orders || orders[id].status != Approved {
        return;
      }
      var order := orders[id];
      if order.mode == Live && !order.reduceOnly {
        if !s.healthy {
          PublishEvent(FailedSafeEvent(id, order));
          return;
        }
        if !s.authorized {
          PublishEvent(FailedSafeEvent(id, order));
          return;
        }
      }
      var reserved := MarkOrderSubmitting(id);
      if reserved == None || reserved.value.status != Submitting {
        return;
      }
      order := reserved.value;
      if !order.routable {
        PublishEvent(FailedSafeEvent(id, order));
        return;
      }
      submissions := submissions + [RequestFor(id, order)];
      match s.reply
      case None =>
        PublishEvent(OrderUpdate(BrokerEvent(id, None, "UNKNOWN", order.filled, order.averagePrice)));
      case Some(r) =>
        var status := NormalizeStatus(r.status);
        PublishEvent(OrderUpdate(BrokerEvent(id, r.brokerId, status, r.filled, r.averagePrice)));
        if status == "FILLED" && r.filled > 0 {
          PublishEvent(TradeFill(Fill(id, r.filled, r.filled)));
        }
    }

    method HandleExecutionCommand(id: OrderId, s: Surroundings)
      modifies this
      ensures State() == if id in old(processed) then old(State())
                         else ExecuteCall(old(State()).(processed := old(processed) + {id}), id, s)
    {
      if id in processed {
        return;
      }
      processed := processed + {id};
      ExecuteOrder(id, s);
    }

    method RecoverApprovedOrders(listed: seq<(OrderId, Order)>, s: OrderId -> Surroundings)
      modifies this
      ensures State() == RecoverAll(old(State()), listed, s)
    {
      for i := 0 to |listed|
        invariant State() == RecoverAll(old(State()), listed[..i], s)
      {
        assert listed[..i + 1][..i] == listed[..i];
        var (id, order) := listed[i];
        if order.status != Approved {
          continue;
        }
        ExecuteOrder(id, s(id));
      }
      assert listed[..|listed|] == listed;
    }

    method PublishTradeFill(id: OrderId, quantity: int, cumulative: nat)
      modifies this`queue
      ensures State() == Publish(old(State()), [TradeFill(Fill(id, cumulative, quantity))])
    {
      PublishEvent(TradeFill(Fill(id, cumulative, quantity)));
    }

    method BrokerAnswer(id: OrderId, order: Order, g: Gateway) returns (response: Option<Response>)
      ensures response == EvidenceFor(id, order, g)
    {
      response := None;
      if id in g.failing {
        return;
      }
      if order.brokerId.Some? {
        if order.brokerId.value in g.byBrokerId {
          response := Some(g.byBrokerId[order.brokerId.value]);
        }
      } else if order.status == Submitting || order.status == SubmissionUnknown {
        if id in g.byClientId {
          response := Some(g.byClientId[id]);
        }
        if response == None {
          response := FromTrades(id, order, g.trades);
        }
      }
    }

    /** The body of the pass for one listed order. */
    method ReconcileOrder(id: OrderId, order: Order, g: Gateway)
      modifies this`queue
      ensures State() == Publish(old(State()), VisitEvents(order, id, Executed(fills, id), g))
    {
      var held := Executed(fills, id);
      if order.status == Filled {
        var missing := Max(0, order.filled - held);
        if missing > 0 {
          PublishTradeFill(id, missing, order.filled);
        }
        return;
      }
      var response := BrokerAnswer(id, order, g);
      if response == None {
        return;
      }
      var a := response.value;
      var delta := Max(0, a.filled - held);
      PublishEvent(OrderUpdate(BrokerEvent(id, if a.brokerId.Some? then a.brokerId else order.brokerId,
                                           NormalizeStatus(a.status), a.filled, a.averagePrice)));
      if delta > 0 {
        PublishTradeFill(id, delta, a.filled);
      }
    }

    /** One pass over the listed orders; `ids` is what `list_orders` returns. */
    method ReconcileLiveOrders(ids: seq<OrderId>, g: Gateway)
      modifies this`queue
      ensures State() == RestOfPass(old(State()).(pass := Pass(Snapshot(old(orders), ids), None)), g)
    {
      var listed := Snapshot(orders, ids);
      ghost var start := State().(pass := Pass(listed, None));
      var i := 0;
      while i < |listed|
        invariant 0 <= i <= |listed|
        invariant RestOfPass(State().(pass := Pass(listed[i..], None)), g) == RestOfPass(start, g)
      {
        ghost var before := State();
        var (id, order) := listed[i];
        ReconcileOrder(id, order, g);
        VisitIs(before, listed[i..], g);
        assert listed[i..][1..] == listed[i + 1..];
        i := i + 1;
      }
    }

    /** One iteration of the dispatcher loop. */
    method DispatchEvent(s: OrderId -> Surroundings)
      requires queue != []
      modifies this
      ensures State() == DispatchOne(old(State()), s)
    {
      var e := queue[0];
      queue := queue[1..];
      match e
      case Command(id) =>
        HandleExecutionCommand(id, s(id));
      case OrderUpdate(u) =>
        if u.orderId in orders {
          orders := orders[u.orderId := ApplyBrokerEvent(orders[u.orderId], u)];
        }
      case TradeFill(f) =>
        fills := ApplyFill(fills, f);
    }

    /** The dispatcher loop until the queue is empty; `s` is what the outside answers to each command. */
    method Drain(s: OrderId -> Surroundings)
      modifies this
      ensures queue == []
      ensures State() == Dispatched(old(State()), s)
      ensures forall id :: !(Commanded(old(queue), id) && FillsAtOnce(s(id))) ==>
                Executed(fills, id) == old(Eventual(State(), id))
    {
      while queue != []
        invariant Dispatched(State(), s) == Dispatched(old(State()), s)
        decreases Commands(queue), |queue|
      {
        DispatchShrinks(State(), s);
        DispatchEvent(s);
      }
      forall id | !(Commanded(old(queue), id) && FillsAtOnce(s(id)))
        ensures Executed(fills, id) == old(Eventual(State(), id))
      {
        DispatchedHolds(old(State()), s, id);
      }
    }
  }
}
