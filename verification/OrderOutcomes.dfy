/** What a call and a reconciliation pass do to an order's row once the bus has drained: from the broker's
    words and records to the order's state. */
module OrderOutcomes {
  import opened Common
  import opened Oms
  import opened Portfolio
  import opened Protocol
  import opened Evidence
  import opened FillConservation
  import opened SingleSubmission
  import opened ExecutionService
  import opened BrokerWords

  // ---- the updates of one order on their way ----

  function UpdatesAbout(queue: seq<Event>, id: OrderId): seq<BrokerEvent> {
    if queue == [] then []
    else
      var e := queue[|queue| - 1];
      UpdatesAbout(queue[..|queue| - 1], id) + if e.OrderUpdate? && e.update.orderId == id then [e.update] else []
  }

  lemma OneEvent(e: Event, id: OrderId)
    ensures UpdatesAbout([e], id) == if e.OrderUpdate? && e.update.orderId == id then [e.update] else []
  {
    assert [e][..0] == [];
  }

  lemma {:induction false} UpdatesSplit(a: seq<Event>, b: seq<Event>, id: OrderId)
    ensures UpdatesAbout(a + b, id) == UpdatesAbout(a, id) + UpdatesAbout(b, id)
  {
    if b == [] {
      assert a + b == a;
    } else {
      var n := |b| - 1;
      UpdatesSplit(a, b[..n], id);
      assert (a + b)[..|a| + n] == a + b[..n];
      assert (a + b)[|a| + n] == b[n];
      var last := if b[n].OrderUpdate? && b[n].update.orderId == id then [b[n].update] else [];
      assert UpdatesAbout(a, id) + UpdatesAbout(b[..n], id) + last == UpdatesAbout(a, id) + (UpdatesAbout(b[..n], id) + last);
    }
  }

  lemma {:induction false} NoUpdates(evs: seq<Event>, id: OrderId)
    requires forall i :: 0 <= i < |evs| && evs[i].OrderUpdate? ==> evs[i].update.orderId != id
    ensures UpdatesAbout(evs, id) == []
  {
    if evs != [] {
      NoUpdates(evs[..|evs| - 1], id);
    }
  }

  lemma {:induction false} ApplySplit(o: Order, a: seq<BrokerEvent>, b: seq<BrokerEvent>)
    ensures ApplyBrokerEvents(o, a + b) == ApplyBrokerEvents(ApplyBrokerEvents(o, a), b)
  {
    if b == [] {
      assert a + b == a;
    } else {
      ApplySplit(o, a, b[..|b| - 1]);
      assert (a + b)[..|a + b| - 1] == a + b[..|b| - 1];
    }
  }

  lemma ApplyOne(o: Order, u: BrokerEvent)
    ensures ApplyBrokerEvents(o, [u]) == ApplyBrokerEvent(o, u)
  {
    assert [u][..0] == [];
    assert ApplyBrokerEvents(o, []) == o;
  }

  /** The order's row after the queue's updates about it. */
  function RowAfter(w: World, id: OrderId): Order
    requires id in w.orders
  {
    ApplyBrokerEvents(w.orders[id], UpdatesAbout(w.queue, id))
  }

  /** No command on the queue can still touch the order. */
  predicate Uncommanded(w: World, id: OrderId) {
    id in w.orders && (Commanded(w.queue, id) ==> w.orders[id].status != Approved)
  }

  lemma HeadFirst(w: World, id: OrderId)
    requires w.queue != [] && id in w.orders
    ensures var e := w.queue[0];
            RowAfter(w, id) == ApplyBrokerEvents(if e.OrderUpdate? && e.update.orderId == id
                                                 then ApplyBrokerEvent(w.orders[id], e.update) else w.orders[id],
                                                 UpdatesAbout(w.queue[1..], id))
  {
    var e := w.queue[0];
    assert w.queue == [e] + w.queue[1..];
    UpdatesSplit([e], w.queue[1..], id);
    OneEvent(e, id);
    ApplySplit(w.orders[id], UpdatesAbout([e], id), UpdatesAbout(w.queue[1..], id));
    if e.OrderUpdate? {
      ApplyOne(w.orders[id], e.update);
    }
  }

  lemma ForeignPublicationKeepsRow(w: World, w': World, evs: seq<Event>, id: OrderId)
    requires Uncommanded(w, id) && id in w'.orders && w'.orders[id] == w.orders[id] && w'.queue == w.queue + evs
    requires forall i :: 0 <= i < |evs| ==> !evs[i].Command?
    requires forall i :: 0 <= i < |evs| && evs[i].OrderUpdate? ==> evs[i].update.orderId != id
    ensures Uncommanded(w', id) && RowAfter(w', id) == RowAfter(w, id)
  {
    NoUpdates(evs, id);
    UpdatesSplit(w.queue, evs, id);
    assert UpdatesAbout(w.queue, id) + [] == UpdatesAbout(w.queue, id);
  }

  /** A call for another order, or for one that is not APPROVED, leaves this one's row and updates alone. */
  lemma CallKeepsRow(w: World, x: OrderId, s: Surroundings, id: OrderId)
    requires Uncommanded(w, id) && (x == id ==> w.orders[id].status != Approved)
    ensures var w' := ExecuteCall(w, x, s); Uncommanded(w', id) && RowAfter(w', id) == RowAfter(w, id)
  {
    if x == id {
      assert ExecuteCall(w, x, s) == w;
    } else {
      var evs := CallPublishes(w, x, s);
      ExecuteCallEffect(w, x, s, id);
      ForeignPublicationKeepsRow(w, ExecuteCall(w, x, s), evs, id);
    }
  }

  lemma CommandKeepsRow(w: World, s: OrderId -> Surroundings, id: OrderId)
    requires w.queue != [] && w.queue[0].Command? && Uncommanded(w, id)
    ensures var w' := DispatchOne(w, s); Uncommanded(w', id) && RowAfter(w', id) == RowAfter(w, id)
  {
    HeadFirst(w, id);
    var x := w.queue[0].orderId;
    assert x == id ==> Commanded(w.queue, id);
    if x !in w.processed {
      CallKeepsRow(w.(queue := w.queue[1..], processed := w.processed + {x}), x, s(x), id);
    }
  }

  lemma DispatchKeepsRow(w: World, s: OrderId -> Surroundings, id: OrderId)
    requires w.queue != [] && Uncommanded(w, id)
    ensures var w' := DispatchOne(w, s); Uncommanded(w', id) && RowAfter(w', id) == RowAfter(w, id)
  {
    if w.queue[0].Command? {
      CommandKeepsRow(w, s, id);
    } else {
      HeadFirst(w, id);
      if w.queue[0].OrderUpdate? && w.queue[0].update.orderId == id {
        EventAdvances(w.orders[id], w.queue[0].update);
      }
    }
  }

  /** Draining the queue leaves an order that no command can touch with its row after the updates about it,
      in their order. */
  lemma {:induction false} DispatchedRow(w: World, s: OrderId -> Surroundings, id: OrderId)
    requires Uncommanded(w, id)
    ensures var w' := Dispatched(w, s); id in w'.orders && w'.orders[id] == RowAfter(w, id)
    decreases Commands(w.queue), |w.queue|
  {
    if w.queue != [] {
      DispatchShrinks(w, s);
      DispatchKeepsRow(w, s, id);
      DispatchedRow(DispatchOne(w, s), s, id);
    }
  }

  // ---- a command is served ----

  lemma {:induction false} SubmissionsStay(w: World, s: OrderId -> Surroundings, id: OrderId)
    ensures Count(Dispatched(w, s).submissions, id) >= Count(w.submissions, id)
    decreases Commands(w.queue), |w.queue|
  {
    if w.queue != [] {
      DispatchShrinks(w, s);
      if w.queue[0].Command? {
        var x := w.queue[0].orderId;
        ExecuteCallEffect(w.(queue := w.queue[1..], processed := w.processed + {x}), x, s(x), id);
      }
      SubmissionsStay(DispatchOne(w, s), s, id);
    }
  }

  /** The order waits for a command on the queue, and its call will submit it. */
  ghost predicate Awaits(w: World, s: OrderId -> Surroundings, id: OrderId) {
    Pending(w, id) && Submits(w, id, s(id)) && UpdatesAbout(w.queue, id) == []
  }

  lemma OtherCallKeepsWaiting(w: World, s: OrderId -> Surroundings, x: OrderId, id: OrderId)
    requires x != id && Awaits(w, s, id)
    ensures var w' := ExecuteCall(w, x, s(x)); Awaits(w', s, id) && Count(w'.submissions, id) == Count(w.submissions, id)
  {
    var evs := CallPublishes(w, x, s(x));
    ExecuteCallEffect(w, x, s(x), id);
    NoUpdates(evs, id);
    UpdatesSplit(w.queue, evs, id);
    assert forall i :: 0 <= i < |w.queue| ==> (w.queue + evs)[i] == w.queue[i];
  }

  lemma TailAbout(queue: seq<Event>, id: OrderId)
    requires queue != [] && UpdatesAbout(queue, id) == []
    ensures UpdatesAbout(queue[1..], id) == [] && !(queue[0].OrderUpdate? && queue[0].update.orderId == id)
    ensures Commanded(queue, id) && queue[0] != Command(id) ==> Commanded(queue[1..], id)
  {
    assert queue == [queue[0]] + queue[1..];
    UpdatesSplit([queue[0]], queue[1..], id);
    OneEvent(queue[0], id);
    if i :| 0 < i < |queue| && queue[i] == Command(id) {
      assert queue[1..][i - 1] == Command(id);
    }
  }

  lemma DispatchKeepsWaiting(w: World, s: OrderId -> Surroundings, id: OrderId)
    requires w.queue != [] && w.queue[0] != Command(id) && Awaits(w, s, id)
    ensures var w' := DispatchOne(w, s); Awaits(w', s, id) && Count(w'.submissions, id) == Count(w.submissions, id)
  {
    TailAbout(w.queue, id);
    if w.queue[0].Command? && w.queue[0].orderId !in w.processed {
      var x := w.queue[0].orderId;
      OtherCallKeepsWaiting(w.(queue := w.queue[1..], processed := w.processed + {x}), s, x, id);
    }
  }

  /** An order whose command waits on the queue is submitted exactly once by draining it, if its call may submit
      and nothing is reported about it before. */
  lemma {:induction false} DispatchedSubmitsExactly(w: World, s: OrderId -> Surroundings, id: OrderId)
    requires Awaits(w, s, id)
    ensures Count(Dispatched(w, s).submissions, id) == Count(w.submissions, id) + 1
    decreases Commands(w.queue), |w.queue|
  {
    DispatchShrinks(w, s);
    if w.queue[0] == Command(id) {
      ExecuteCallEffect(w.(queue := w.queue[1..], processed := w.processed + {id}), id, s(id), id);
      SubmissionsStay(DispatchOne(w, s), s, id);
      DispatchedSubmitsOnce(w, s, id);
    } else {
      DispatchKeepsWaiting(w, s, id);
      DispatchedSubmitsExactly(DispatchOne(w, s), s, id);
    }
  }

  // ---- one call, drained ----

  /** An update alone on its way is what the row becomes. */
  lemma OneUpdate(w: World, w': World, u: BrokerEvent, evs: seq<Event>, s: OrderId -> Surroundings, id: OrderId)
    requires UpdatesAbout(w.queue, id) == [] && w'.queue == w.queue + [OrderUpdate(u)] + evs && u.orderId == id
    requires forall i :: 0 <= i < |evs| ==> evs[i].TradeFill?
    requires Uncommanded(w', id)
    ensures var w'' := Dispatched(w', s); id in w''.orders && w''.orders[id] == ApplyBrokerEvent(w'.orders[id], u)
  {
    DispatchedRow(w', s, id);
    NoUpdates(evs, id);
    UpdatesSplit(w.queue + [OrderUpdate(u)], evs, id);
    UpdatesSplit(w.queue, [OrderUpdate(u)], id);
    OneEvent(OrderUpdate(u), id);
    assert UpdatesAbout(w'.queue, id) == [u];
    ApplyOne(w'.orders[id], u);
  }

  /** A call that submits and gets no reply, because `place_order` raised or timed out, leaves the order
      SUBMISSION_UNKNOWN once the bus has drained, its terms and its fills as they were: a state that passes go on
      reconciling. */
  lemma UnansweredCall(w: World, id: OrderId, s: Surroundings, later: OrderId -> Surroundings)
    requires Submits(w, id, s) && s.reply == None && UpdatesAbout(w.queue, id) == []
    ensures var o, w' := w.orders[id], Dispatched(ExecuteCall(w, id, s), later);
            && id in w'.orders && w'.orders[id].status == SubmissionUnknown
            && w'.orders[id].(status := Approved, remaining := o.remaining) == o
            && (o.mode == Live ==> Reconcilable(w'.orders[id]))
            && Eventual(ExecuteCall(w, id, s), id) == Eventual(w, id)
  {
    var o' := w.orders[id].(status := Submitting);
    var u := BrokerEvent(id, None, "UNKNOWN", o'.filled, o'.averagePrice);
    var w' := ExecuteCall(w, id, s);
    assert w'.queue == w.queue + [OrderUpdate(u)] + [];
    OneUpdate(w, w', u, [], later, id);
    WordMovesOrder(o', u);
    DrainAppend(w.fills, w.queue, OrderUpdate(u));
  }

  /** A call that submits and is answered leaves the order with what the answer says, and publishes the
      fill exactly when the answer says FILLED with a quantity. */
  lemma AnsweredCall(w: World, id: OrderId, s: Surroundings, later: OrderId -> Surroundings)
    requires Submits(w, id, s) && s.reply.Some? && UpdatesAbout(w.queue, id) == []
    ensures var w', a := ExecuteCall(w, id, s), s.reply.value; var w'' := Dispatched(w', later);
            && id in w''.orders && Follows(w.orders[id].(status := Submitting), w''.orders[id], a)
            && w'.queue[|w.queue| + 1..] == (if SaysFilled(a.status) && a.filled > 0 then [TradeFill(Fill(id, a.filled, a.filled))] else [])
  {
    var a, o' := s.reply.value, w.orders[id].(status := Submitting);
    var u := BrokerEvent(id, a.brokerId, NormalizeStatus(a.status), a.filled, a.averagePrice);
    var w' := ExecuteCall(w, id, s);
    var fill := if u.status == "FILLED" && a.filled > 0 then [TradeFill(Fill(id, a.filled, a.filled))] else [];
    assert w'.queue == w.queue + [OrderUpdate(u)] + fill;
    OneUpdate(w, w', u, fill, later, id);
    RowFollows(o', u, a);
    if a.status == "" {
      NoStatus();
    } else {
      FilledWords(a.status);
    }
  }

  /** A call that meets an APPROVED order and may not submit it leaves it FAILED_SAFE. */
  lemma RefusedCall(w: World, id: OrderId, s: Surroundings, later: OrderId -> Surroundings)
    requires id in w.orders && w.orders[id].status == Approved && !Submits(w, id, s)
    requires UpdatesAbout(w.queue, id) == [] && !Commanded(w.queue, id)
    ensures var w' := ExecuteCall(w, id, s);
            && w'.submissions == w.submissions
            && id in Dispatched(w', later).orders && Dispatched(w', later).orders[id].status == FailedSafe
  {
    var o, w' := w.orders[id], ExecuteCall(w, id, s);
    var u := FailedSafeEvent(id, o).update;
    assert w'.queue == w.queue + [OrderUpdate(u)] + [];
    OneUpdate(w, w', u, [], later, id);
    assert ApplyBrokerEvent(w'.orders[id], u).status == FailedSafe;
  }

  // ---- a complete pass, drained ----

  function AnswerUpdate(id: OrderId, o: Order, a: Response): BrokerEvent {
    BrokerEvent(id, if a.brokerId.Some? then a.brokerId else o.brokerId, NormalizeStatus(a.status), a.filled, a.averagePrice)
  }

  /** The updates a visit publishes: one for an answer, none for a FILLED row or without an answer. */
  function VisitUpdates(id: OrderId, o: Order, g: Gateway): seq<BrokerEvent> {
    if o.status == Filled || EvidenceFor(id, o, g) == None then []
    else [AnswerUpdate(id, o, EvidenceFor(id, o, g).value)]
  }

  lemma FillsOnly(id: OrderId, n: nat, held: int, other: OrderId)
    ensures UpdatesAbout(MissingFill(id, n, held), other) == []
  {
    NoUpdates(MissingFill(id, n, held), other);
  }

  lemma UpdateThenFills(u: BrokerEvent, fills: seq<Event>, id: OrderId)
    requires forall i :: 0 <= i < |fills| ==> fills[i].TradeFill?
    ensures UpdatesAbout([OrderUpdate(u)] + fills, id) == if u.orderId == id then [u] else []
    ensures !Commanded([OrderUpdate(u)] + fills, id)
  {
    UpdatesSplit([OrderUpdate(u)], fills, id);
    NoUpdates(fills, id);
    OneEvent(OrderUpdate(u), id);
  }

  lemma EventsAbout(o: Order, x: OrderId, held: int, g: Gateway, id: OrderId)
    ensures UpdatesAbout(VisitEvents(o, x, held, g), id) == if x == id then VisitUpdates(x, o, g) else []
    ensures !Commanded(VisitEvents(o, x, held, g), id)
  {
    if o.status == Filled {
      FillsOnly(x, o.filled, held, id);
    } else if EvidenceFor(x, o, g).Some? {
      var a := EvidenceFor(x, o, g).value;
      UpdateThenFills(AnswerUpdate(x, o, a), MissingFill(x, a.filled, held), id);
    }
  }

  /** From `w` to `w'` only events were published, no commands for the order and exactly these updates about it. */
  ghost predicate Added(w: World, w': World, id: OrderId, us: seq<BrokerEvent>) {
    && w'.orders == w.orders && (Commanded(w'.queue, id) ==> Commanded(w.queue, id))
    && UpdatesAbout(w'.queue, id) == UpdatesAbout(w.queue, id) + us
  }

  lemma VisitAbout(w: World, g: Gateway, id: OrderId)
    requires w.pass.reading == None && w.pass.todo != []
    ensures var (x, o) := w.pass.todo[0]; Added(w, VisitOrder(w, g), id, if x == id then VisitUpdates(x, o, g) else [])
  {
    var (x, o) := w.pass.todo[0];
    var evs := VisitEvents(o, x, Held(w, x), g);
    assert VisitOrder(w, g) == Publish(w, evs).(pass := Pass(w.pass.todo[1..], None));
    EventsAbout(o, x, Held(w, x), g, id);
    UpdatesSplit(w.queue, evs, id);
    assert forall i :: |w.queue| <= i < |w.queue + evs| ==> (w.queue + evs)[i] == evs[i - |w.queue|];
  }

  lemma {:induction false} PassAboutUnlisted(w: World, g: Gateway, id: OrderId)
    requires w.pass.reading == None && !Listed(w.pass.todo, id)
    ensures Added(w, RestOfPass(w, g), id, [])
    decreases |w.pass.todo|
  {
    if w.pass.todo != [] {
      VisitAbout(w, g, id);
      PassAboutUnlisted(VisitOrder(w, g), g, id);
    }
  }

  lemma {:induction false} PassAbout(w: World, g: Gateway, k: nat, id: OrderId, o: Order)
    requires w.pass.reading == None && k < |w.pass.todo| && w.pass.todo[k] == (id, o)
    requires forall i :: 0 <= i < |w.pass.todo| && w.pass.todo[i].0 == id ==> i == k
    ensures Added(w, RestOfPass(w, g), id, VisitUpdates(id, o, g))
    decreases k
  {
    var w' := VisitOrder(w, g);
    VisitAbout(w, g, id);
    if k == 0 {
      PassAboutUnlisted(w', g, id);
    } else {
      PassAbout(w', g, k - 1, id, o);
    }
  }

  /** The k-th order of the pass is listed as its row is, with nothing about it on the queue, its fills settled,
      and no command whose answer could fill it. */
  ghost predicate Undisturbed(w: World, k: nat, s: OrderId -> Surroundings)
    requires k < |w.pass.todo|
  {
    var (id, o) := w.pass.todo[k];
    && w.pass.reading == None && Distinct(w.pass.todo)
    && id in w.orders && w.orders[id] == o && Reconcilable(o)
    && UpdatesAbout(w.queue, id) == [] && Settled(w, id) && (Commanded(w.queue, id) ==> !FillsAtOnce(s(id)))
  }

  lemma PassThenDrain(w: World, g: Gateway, k: nat, n: nat, s: OrderId -> Surroundings)
    requires k < |w.pass.todo| && Undisturbed(w, k, s) && Shows(g, w.pass.todo[k].0, w.pass.todo[k].1, n)
    ensures var (id, o) := w.pass.todo[k]; var w' := Dispatched(RestOfPass(w, g), s);
            && id in w'.orders && w'.orders[id] == ApplyBrokerEvents(o, VisitUpdates(id, o, g))
            && Held(w', id) == Max(Held(w, id), n)
  {
    var (id, o) := w.pass.todo[k];
    PassFollowsBroker(w, g, k, n);
    PassAbout(w, g, k, id, o);
    DispatchedHolds(RestOfPass(w, g), s, id);
    DispatchedRow(RestOfPass(w, g), s, id);
    assert [] + VisitUpdates(id, o, g) == VisitUpdates(id, o, g);
  }

  /** After a complete pass and its events, a listed order that the broker answers about has the state that
      answer's word gives it, and the portfolio holds the greater of what it held and the answer's fill. */
  lemma PassFollowsAnswer(w: World, g: Gateway, k: nat, a: Response, s: OrderId -> Surroundings)
    requires k < |w.pass.todo| && Undisturbed(w, k, s)
    requires w.pass.todo[k].1.status != Filled && Answers(g, w.pass.todo[k].0, w.pass.todo[k].1, a)
    ensures var (id, o) := w.pass.todo[k]; var w' := Dispatched(RestOfPass(w, g), s);
            && id in w'.orders && Follows(o, w'.orders[id], a)
            && Held(w', id) == Max(Held(w, id), a.filled)
  {
    var (id, o) := w.pass.todo[k];
    EvidenceIsTheAnswer(id, o, g, a);
    PassThenDrain(w, g, k, a.filled, s);
    ApplyOne(o, VisitUpdates(id, o, g)[0]);
    RowFollows(o, VisitUpdates(id, o, g)[0], a);
  }

  /** An order that is FILLED or that the broker says nothing about keeps its row; of a FILLED one the
      portfolio then holds at least what the row says. */
  lemma PassKeepsOthers(w: World, g: Gateway, k: nat, s: OrderId -> Surroundings)
    requires k < |w.pass.todo| && Undisturbed(w, k, s)
    requires var (id, o) := w.pass.todo[k]; o.status == Filled || forall a :: !Answers(g, id, o, a)
    ensures var (id, o) := w.pass.todo[k]; var w' := Dispatched(RestOfPass(w, g), s);
            && id in w'.orders && w'.orders[id] == o
            && Held(w', id) == (if o.status == Filled then Max(Held(w, id), o.filled) else Held(w, id))
  {
    var (id, o) := w.pass.todo[k];
    if o.status != Filled && EvidenceFor(id, o, g).Some? {
      EvidenceIsTheAnswer(id, o, g, EvidenceFor(id, o, g).value);
    }
    PassThenDrain(w, g, k, if o.status == Filled then o.filled else 0, s);
  }

  /** A broker's word that an order has ended ends it exactly where the state table has the edge: CANCELLED
      unless it is SUBMITTING, EXPIRED once it was acknowledged, REJECTED until it is open. A refused word changes
      nothing, so such an order is listed by the next pass again, which is answered the same. */
  lemma EndTakenExactly(w: World, g: Gateway, k: nat, a: Response, s: OrderId -> Surroundings)
    requires k < |w.pass.todo| && Undisturbed(w, k, s)
    requires w.pass.todo[k].1.status != Filled && Answers(g, w.pass.todo[k].0, w.pass.todo[k].1, a)
    ensures var (id, o) := w.pass.todo[k]; var w' := Dispatched(RestOfPass(w, g), s);
            id in w'.orders && EndsWhereAllowed(o, w'.orders[id], a)
  {
    PassFollowsAnswer(w, g, k, a, s);
    EndsPerTable(w.pass.todo[k].1, Dispatched(RestOfPass(w, g), s).orders[w.pass.todo[k].0], a);
  }

  /** Such an order: SUBMITTING, and cancelled at the broker. */
  lemma CancelledStaysSubmitting(id: OrderId, o: Order, s: OrderId -> Surroundings)
    requires o.mode == Live && o.status == Submitting && o.brokerId == None
    ensures var a := Response("CANCELLED", Some("B1"), 0, 0.0);
            var w := START.(orders := map[id := o], pass := Pass([(id, o)], None));
            var w' := Dispatched(RestOfPass(w, Gateway(map[], map[id := a], [], {})), s);
            id in w'.orders && w'.orders[id] == o
  {
    var a := Response("CANCELLED", Some("B1"), 0, 0.0);
    var w := START.(orders := map[id := o], pass := Pass([(id, o)], None));
    var g := Gateway(map[], map[id := a], [], {});
    assert Answers(g, id, o, a) && Undisturbed(w, 0, s);
    EndTakenExactly(w, g, 0, a, s);
  }

  /** After any run with fresh readings, a crash that loses the queue, one pass and its events: the order has the
      state the broker's answer gives it, and the portfolio the broker's fill if the answer reports all of it. */
  lemma CrashThenPassSettles(steps: seq<Step>, ids: seq<OrderId>, g: Gateway, k: nat, a: Response, s: OrderId -> Surroundings)
    requires Valid(START, steps)
    requires var w := After(START, steps); k < |Snapshot(w.orders, ids)| && Distinct(Snapshot(w.orders, ids))
    requires var w := After(START, steps); var (id, o) := Snapshot(w.orders, ids)[k];
             NeverStale(START, steps, id) && o.status != Filled && Answers(g, id, o, a) && a.filled == BrokerFilled(w, id)
    ensures var w := After(START, steps); var (id, o) := Snapshot(w.orders, ids)[k];
            var w' := Dispatched(RestOfPass(Next(Next(w, Crash), ListOrders(ids)), g), s);
            id in w'.orders && Follows(o, w'.orders[id], a) && Held(w', id) == BrokerFilled(w, id)
  {
    var w := After(START, steps);
    var (id, o) := Snapshot(w.orders, ids)[k];
    SnapshotOf(w.orders, ids);
    PortfolioNeverExceedsBroker(steps, id);
    var listed := Next(Next(w, Crash), ListOrders(ids));
    assert listed.queue == [] && listed.fills == w.fills && listed.pass == Pass(Snapshot(w.orders, ids), None);
    PassFollowsAnswer(listed, g, k, a, s);
  }
}
