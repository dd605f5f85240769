/** What becomes of a submitted order while the broker has not answered about it: it stays on the
    reconciliation list, unless a refusal of another call for it arrives late. */
module UnansweredOrders {
  import opened Common
  import opened Oms
  import opened Portfolio
  import opened Protocol
  import opened FillConservation
  import opened SingleSubmission

  /** The step brings in an answer of the broker's about the order. */
  ghost predicate Answering(w: World, step: Step, id: OrderId)
    requires Enabled(w, step)
  {
    || (step.Settle? && step.answer.Some? && w.pass.reading.value.orderId == id)
    || (step.Report? && CallOf(w, step.task).orderId == id && CallOf(w, step.task).reply.Some?)
  }

  ghost predicate Unanswered(w: World, steps: seq<Step>, id: OrderId)
    requires Valid(w, steps)
  {
    steps == [] || (Unanswered(w, steps[..|steps| - 1], id)
                    && !Answering(After(w, steps[..|steps| - 1]), steps[|steps| - 1], id))
  }

  /** The step delivers a refusal of a call for the order. */
  ghost predicate RefusalArrives(w: World, step: Step, id: OrderId) {
    && step.Deliver? && w.queue != [] && w.queue[0].OrderUpdate?
    && w.queue[0].update.orderId == id && w.queue[0].update.status == "FAILED_SAFE"
  }

  ghost predicate RefusalArrived(w: World, steps: seq<Step>, id: OrderId)
    requires Valid(w, steps)
  {
    steps != [] && (RefusalArrived(w, steps[..|steps| - 1], id)
                    || RefusalArrives(After(w, steps[..|steps| - 1]), steps[|steps| - 1], id))
  }

  ghost predicate HasStatus(w: World, id: OrderId, states: set<OrderState>) {
    id in w.orders && w.orders[id].status in states
  }

  ghost predicate CallAbout(c: Call, id: OrderId) {
    c != Idle && c.orderId == id
  }

  /** A reservation for the order is or was in use. */
  ghost predicate Claimed(w: World, id: OrderId) {
    || Count(w.submissions, id) >= 1
    || (CallAbout(w.dispatcher, id) && (w.dispatcher.Reserved? || w.dispatcher.Answered?))
    || (CallAbout(w.recovery, id) && (w.recovery.Reserved? || w.recovery.Answered?))
  }

  ghost predicate UnansweredInv(w: World, id: OrderId, refused: bool) {
    && (id in w.orders ==> HasStatus(w, id, {Validating, RiskRejected, Approved, Submitting, SubmissionUnknown, FailedSafe}))
    && (forall i :: 0 <= i < |w.queue| && w.queue[i].OrderUpdate? && w.queue[i].update.orderId == id ==>
          w.queue[i].update.status in {"UNKNOWN", "FAILED_SAFE"}
          && HasStatus(w, id, {Approved, Submitting, SubmissionUnknown, FailedSafe}))
    && (CallAbout(w.dispatcher, id) || CallAbout(w.recovery, id) ==>
          HasStatus(w, id, {Approved, Submitting, SubmissionUnknown, FailedSafe}))
    && (Claimed(w, id) ==> HasStatus(w, id, {Submitting, SubmissionUnknown, FailedSafe}))
    && (HasStatus(w, id, {FailedSafe}) <==> refused)
  }

  lemma UpdateMoves(o: Order, u: BrokerEvent)
    requires o.status in {Approved, Submitting, SubmissionUnknown, FailedSafe} && u.status in {"UNKNOWN", "FAILED_SAFE"}
    ensures var status := ApplyBrokerEvent(o, u).status;
            && status in {SubmissionUnknown, FailedSafe}
            && (status == FailedSafe <==> o.status == FailedSafe || u.status == "FAILED_SAFE")
  {
    TableByTarget(o.status, TargetState(o.status, u.status, u.filled));
  }

  lemma UpdateKeepsUnanswered(w: World, id: OrderId, refused: bool)
    requires w.queue != [] && w.queue[0].OrderUpdate? && UnansweredInv(w, id, refused)
    ensures UnansweredInv(DeliverHead(w), id, refused || RefusalArrives(w, Deliver, id))
  {
    var u := w.queue[0].update;
    if u.orderId == id {
      assert w.queue[0].update.status in {"UNKNOWN", "FAILED_SAFE"};
      UpdateMoves(w.orders[id], u);
    }
  }

  lemma DeliverKeepsUnanswered(w: World, id: OrderId, refused: bool)
    requires Enabled(w, Deliver) && UnansweredInv(w, id, refused)
    ensures UnansweredInv(DeliverHead(w), id, refused || RefusalArrives(w, Deliver, id))
  {
    if w.queue[0].OrderUpdate? {
      UpdateKeepsUnanswered(w, id, refused);
    }
  }

  lemma BoundaryKeepsUnanswered(w: World, t: TaskId, healthy: bool, authorized: bool, id: OrderId, refused: bool)
    requires CallOf(w, t).Checked? && UnansweredInv(w, id, refused)
    ensures UnansweredInv(PassBoundary(w, t, healthy, authorized), id, refused)
  {
  }

  lemma ReserveKeepsUnanswered(w: World, t: TaskId, id: OrderId, refused: bool)
    requires CallOf(w, t).Cleared? && UnansweredInv(w, id, refused)
    ensures UnansweredInv(ReserveOrder(w, t), id, refused)
  {
  }

  lemma PlaceKeepsUnanswered(w: World, t: TaskId, reply: Option<Response>, id: OrderId, refused: bool)
    requires CallOf(w, t).Reserved? && UnansweredInv(w, id, refused)
    ensures UnansweredInv(PlaceOrder(w, t, reply), id, refused)
  {
    var Reserved(placed, o, clearance) := CallOf(w, t);
    CountAppend(w.submissions, Submission(placed, o.mode, o.reduceOnly, clearance), id);
  }

  lemma ReportKeepsUnanswered(w: World, t: TaskId, id: OrderId, refused: bool)
    requires Enabled(w, Report(t)) && UnansweredInv(w, id, refused) && !Answering(w, Report(t), id)
    ensures UnansweredInv(Next(w, Report(t)), id, refused)
  {
  }

  lemma SettleKeepsUnanswered(w: World, answer: Option<Response>, id: OrderId, refused: bool)
    requires Enabled(w, Settle(answer)) && UnansweredInv(w, id, refused) && !Answering(w, Settle(answer), id)
    ensures UnansweredInv(Next(w, Settle(answer)), id, refused)
  {
  }

  lemma ReadHeldKeepsUnanswered(w: World, id: OrderId, refused: bool)
    requires Enabled(w, ReadHeld) && UnansweredInv(w, id, refused)
    ensures UnansweredInv(Next(w, ReadHeld), id, refused)
  {
  }

  lemma OtherStepKeepsUnanswered(w: World, step: Step, id: OrderId, refused: bool)
    requires step.Submit? || step.Decide? || step.Replay? || step.Recover? || step.BrokerFill? || step.ListOrders? || step.Crash?
    requires Enabled(w, step) && UnansweredInv(w, id, refused)
    ensures UnansweredInv(Next(w, step), id, refused)
  {
  }

  lemma StepKeepsUnanswered(w: World, step: Step, id: OrderId, refused: bool)
    requires Enabled(w, step) && UnansweredInv(w, id, refused) && !Answering(w, step, id)
    ensures UnansweredInv(Next(w, step), id, refused || RefusalArrives(w, step, id))
  {
    match step
    case Deliver => DeliverKeepsUnanswered(w, id, refused);
    case Boundary(t, healthy, authorized) => BoundaryKeepsUnanswered(w, t, healthy, authorized, id, refused);
    case Reserve(t) => ReserveKeepsUnanswered(w, t, id, refused);
    case Place(t, reply) => PlaceKeepsUnanswered(w, t, reply, id, refused);
    case Report(t) => ReportKeepsUnanswered(w, t, id, refused);
    case ReadHeld => ReadHeldKeepsUnanswered(w, id, refused);
    case Settle(answer) => SettleKeepsUnanswered(w, answer, id, refused);
    case _ => OtherStepKeepsUnanswered(w, step, id, refused);
  }

  lemma {:induction false} UnansweredAlongRun(steps: seq<Step>, id: OrderId)
    requires Valid(START, steps) && Unanswered(START, steps, id)
    ensures UnansweredInv(After(START, steps), id, RefusalArrived(START, steps, id))
  {
    if steps != [] {
      var before, last := steps[..|steps| - 1], steps[|steps| - 1];
      UnansweredAlongRun(before, id);
      StepKeepsUnanswered(After(START, before), last, id, RefusalArrived(START, before, id));
    }
  }

  lemma ListedUnlessRefused(w: World, id: OrderId, ids: seq<OrderId>, refused: bool)
    requires UnansweredInv(w, id, refused) && id in ids
    requires Count(w.submissions, id) >= 1 && id in w.orders && w.orders[id].mode == Live
    ensures Listed(Snapshot(w.orders, ids), id) <==> !refused
    ensures w.orders[id].status in (if refused then {FailedSafe} else {Submitting, SubmissionUnknown})
  {
    ListedExactly(w.orders, ids, id);
  }

  /** In every run, crashes and restarts included, a LIVE order that was submitted and that the broker has not
      answered about is SUBMITTING or SUBMISSION_UNKNOWN, and every pass whose list names it visits it, exactly
      as long as no refusal of a call for it has arrived; after one it is FAILED_SAFE and on no list. */
  lemma UnansweredStaysListed(steps: seq<Step>, id: OrderId, ids: seq<OrderId>)
    requires Valid(START, steps) && Unanswered(START, steps, id) && id in ids
    requires var w := After(START, steps); Count(w.submissions, id) >= 1 && id in w.orders && w.orders[id].mode == Live
    ensures var w := After(START, steps);
            && (Listed(Snapshot(w.orders, ids), id) <==> !RefusalArrived(START, steps, id))
            && w.orders[id].status in (if RefusalArrived(START, steps, id) then {FailedSafe} else {Submitting, SubmissionUnknown})
  {
    UnansweredAlongRun(steps, id);
    ListedUnlessRefused(After(START, steps), id, ids, RefusalArrived(START, steps, id));
  }

  /** A call that got no reply publishes one event. Whenever it is delivered and whatever the row is by then, it
      leaves an order that was not acknowledged SUBMISSION_UNKNOWN, and any later state as it is. */
  lemma LostReplyIsUnknown(w: World, t: TaskId, row: Order)
    requires CallOf(w, t).Answered? && CallOf(w, t).reply == None
    ensures var w' := Next(w, Report(t));
            && CallOf(w', t) == Idle && |w'.queue| == |w.queue| + 1 && w'.queue[..|w.queue|] == w.queue
            && var e := w'.queue[|w.queue|];
               && e.OrderUpdate? && e.update.orderId == CallOf(w, t).orderId
               && ApplyBrokerEvent(row, e.update).status
                  == if row.status in {Approved, Submitting, SubmissionUnknown} then SubmissionUnknown else row.status
  {
    var e := Next(w, Report(t)).queue[|w.queue|];
    TableByTarget(row.status, TargetState(row.status, e.update.status, e.update.filled));
  }

  // ---- a refusal that arrives late ----

  lemma {:induction false} NobodyAsked(w: World, steps: seq<Step>, id: OrderId)
    requires Valid(w, steps) && forall i :: 0 <= i < |steps| ==> !steps[i].Settle? && !steps[i].Report?
    ensures Unanswered(w, steps, id)
  {
    if steps != [] {
      NobodyAsked(w, steps[..|steps| - 1], id);
    }
  }

  /** The dispatcher's call is refused; before its event is consumed, recovery calls for the same order. */
  lemma RefusedThenRecovered(id: OrderId, o: Order) returns (steps: seq<Step>)
    requires o.status == Validating && o.filled == 0 && o.remaining == o.quantity && o.mode == Live && !o.reduceOnly
    ensures Valid(START, steps) && forall i :: 0 <= i < |steps| ==> !steps[i].Settle? && !steps[i].Report?
    ensures var approved := o.(status := Approved);
            After(START, steps) == START.(orders := map[id := approved], processed := {id},
                                          queue := [FailedSafeEvent(id, approved)], recovery := Checked(id, approved))
  {
    var checked := ApprovedAndChecked(id, o);
    Extend(START, checked, Boundary(Dispatcher, false, false));
    Extend(START, checked + [Boundary(Dispatcher, false, false)], Recover(id));
    steps := checked + [Boundary(Dispatcher, false, false)] + [Recover(id)];
  }

  lemma RecoveryPlaces(id: OrderId, o: Order) returns (steps: seq<Step>)
    requires o.status == Validating && o.filled == 0 && o.remaining == o.quantity && o.mode == Live && !o.reduceOnly
    requires o.routable
    ensures Valid(START, steps) && forall i :: 0 <= i < |steps| ==> !steps[i].Settle? && !steps[i].Report?
    ensures var w := After(START, steps);
            && w.orders == map[id := o.(status := Submitting)] && w.dispatcher == Idle && w.brokerFilled == map[]
            && w.queue == [FailedSafeEvent(id, o.(status := Approved))]
            && w.submissions == [Submission(id, Live, false, Passed)]
  {
    var refused := RefusedThenRecovered(id, o);
    var clear, reserve, place := Boundary(Recovery, true, true), Reserve(Recovery), Place(Recovery, None);
    Extend(START, refused, clear);
    Extend(START, refused + [clear], reserve);
    Extend(START, refused + [clear] + [reserve], place);
    steps := refused + [clear] + [reserve] + [place];
  }

  lemma RefusalConsumed(id: OrderId, o: Order) returns (steps: seq<Step>)
    requires o.status == Validating && o.filled == 0 && o.remaining == o.quantity && o.mode == Live && !o.reduceOnly
    requires o.routable
    ensures Valid(START, steps) && forall i :: 0 <= i < |steps| ==> !steps[i].Settle? && !steps[i].Report?
    ensures var w := After(START, steps);
            && id in w.orders && w.orders[id].status == FailedSafe && w.brokerFilled == map[]
            && w.submissions == [Submission(id, Live, false, Passed)]
  {
    var placed := RecoveryPlaces(id, o);
    Extend(START, placed, Deliver);
    steps := placed + [Deliver];
  }

  /** Such a run exists without any overlap of the two calls: the refusal of the first is consumed after the second
      has submitted the order. The broker may then fill all of it, and no pass will ever visit it. */
  lemma LateRefusalBuries(id: OrderId, o: Order)
    requires o.status == Validating && o.filled == 0 && o.remaining == o.quantity && o.mode == Live && !o.reduceOnly
    requires o.routable
    ensures exists steps ::
              && Valid(START, steps) && Unanswered(START, steps, id)
              && var w := After(START, steps);
                 && Count(w.submissions, id) == 1 && BrokerFilled(w, id) == o.quantity
                 && id in w.orders && w.orders[id].status == FailedSafe
                 && forall ids :: !Listed(Snapshot(w.orders, ids), id)
  {
    var before := RefusalConsumed(id, o);
    var w, sent := After(START, before), Submission(id, Live, false, Passed);
    CountAppend([], sent, id);
    assert [] + [sent] == w.submissions && w.submissions[0] == sent;
    Extend(START, before, BrokerFill(id, o.quantity));
    var steps := before + [BrokerFill(id, o.quantity)];
    NobodyAsked(START, steps, id);
    forall ids
      ensures !Listed(Snapshot(After(START, steps).orders, ids), id)
    {
      ListedExactly(After(START, steps).orders, ids, id);
    }
  }
}
