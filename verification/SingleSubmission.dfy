/** At most one broker submission per order: when it holds, exactly, and what guards it. */
module SingleSubmission {
  import opened Common
  import opened Oms
  import opened Portfolio
  import opened Protocol

  /** A reservation step that lets its call go on to `place_order` for this order. */
  ghost predicate Grants(w: World, step: Step, id: OrderId) {
    && step.Reserve? && CallOf(w, step.task).Cleared? && CallOf(w, step.task).orderId == id
    && id in w.orders && w.orders[id].status in {Approved, Submitting}
  }

  /** A grant that found the order SUBMITTING already: `mark_order_submitting` returns the
      row another call reserved, and the caller's test for SUBMITTING lets it through. */
  ghost predicate Late(w: World, step: Step, id: OrderId) {
    Grants(w, step, id) && w.orders[id].status == Submitting
  }

  ghost function GrantCount(w: World, steps: seq<Step>, id: OrderId): nat
    requires Valid(w, steps)
  {
    if steps == [] then 0
    else
      var before := steps[..|steps| - 1];
      GrantCount(w, before, id) + if Grants(After(w, before), steps[|steps| - 1], id) then 1 else 0
  }

  ghost predicate AnyLate(w: World, steps: seq<Step>, id: OrderId)
    requires Valid(w, steps)
  {
    steps != [] && (AnyLate(w, steps[..|steps| - 1], id) || Late(After(w, steps[..|steps| - 1]), steps[|steps| - 1], id))
  }

  function Count(submissions: seq<Submission>, id: OrderId): nat {
    if submissions == [] then 0
    else Count(submissions[..|submissions| - 1], id) + if submissions[|submissions| - 1].orderId == id then 1 else 0
  }

  ghost function Holding(c: Call, id: OrderId): nat {
    if c.Reserved? && c.orderId == id then 1 else 0
  }

  /** Submissions made plus calls that may still make one. */
  ghost function Claims(w: World, id: OrderId): nat {
    Count(w.submissions, id) + Holding(w.dispatcher, id) + Holding(w.recovery, id)
  }

  ghost predicate NotYetReserved(w: World, id: OrderId) {
    id in w.orders ==> w.orders[id].status in {Created, Validating, Approved}
  }

  ghost predicate GrantInv(w: World, id: OrderId, grants: nat) {
    && Claims(w, id) <= grants
    && (NotYetReserved(w, id) ==> grants == 0)
    && (id in w.orders && w.orders[id].status == Submitting ==> grants >= 1)
  }

  function Other(t: TaskId): TaskId {
    if t == Dispatcher then Recovery else Dispatcher
  }

  lemma CountAppend(s: seq<Submission>, x: Submission, id: OrderId)
    ensures Count(s + [x], id) == Count(s, id) + if x.orderId == id then 1 else 0
  {
    assert (s + [x])[..|s|] == s;
  }

  lemma DeliverKeepsGrants(w: World, id: OrderId, grants: nat)
    requires w.queue != [] && w.dispatcher == Idle && GrantInv(w, id, grants)
    ensures GrantInv(DeliverHead(w), id, grants)
  {
    if w.queue[0].OrderUpdate? && w.queue[0].update.orderId in w.orders {
      EventAdvances(w.orders[w.queue[0].update.orderId], w.queue[0].update);
    }
  }

  /** Placing an order turns the claim of a reservation into that of a submission, or drops it. */
  lemma PlaceKeepsClaims(w: World, t: TaskId, reply: Option<Response>, id: OrderId)
    requires CallOf(w, t).Reserved?
    ensures var w' := PlaceOrder(w, t, reply); w'.orders == w.orders && Claims(w', id) <= Claims(w, id)
  {
    var Reserved(placed, o, clearance) := CallOf(w, t);
    CountAppend(w.submissions, Submission(placed, o.mode, o.reduceOnly, clearance), id);
  }

  lemma PlaceKeepsGrants(w: World, t: TaskId, reply: Option<Response>, id: OrderId, grants: nat)
    requires CallOf(w, t).Reserved? && GrantInv(w, id, grants)
    ensures GrantInv(PlaceOrder(w, t, reply), id, grants)
  {
    PlaceKeepsClaims(w, t, reply, id);
  }

  lemma ReserveKeepsGrants(w: World, t: TaskId, id: OrderId, grants: nat)
    requires CallOf(w, t).Cleared? && GrantInv(w, id, grants)
    ensures GrantInv(ReserveOrder(w, t), id, grants + if Grants(w, Reserve(t), id) then 1 else 0)
  {
  }

  lemma CallStageKeepsGrants(w: World, step: Step, id: OrderId, grants: nat)
    requires step.Boundary? || step.Report? || step.Recover?
    requires Enabled(w, step) && GrantInv(w, id, grants)
    ensures GrantInv(Next(w, step), id, grants)
  {
  }

  lemma StepKeepsGrants(w: World, step: Step, id: OrderId, grants: nat)
    requires Enabled(w, step) && GrantInv(w, id, grants)
    ensures GrantInv(Next(w, step), id, grants + if Grants(w, step, id) then 1 else 0)
  {
    if Quiet(step) {
      QuietStep(w, step);
    } else {
      match step
      case Deliver => DeliverKeepsGrants(w, id, grants);
      case Place(t, reply) => PlaceKeepsGrants(w, t, reply, id, grants);
      case Reserve(t) => ReserveKeepsGrants(w, t, id, grants);
      case Boundary(_, _, _) => CallStageKeepsGrants(w, step, id, grants);
      case Report(_) => CallStageKeepsGrants(w, step, id, grants);
      case Recover(_) => CallStageKeepsGrants(w, step, id, grants);
      case Submit(_, _) =>
      case Decide(_, _) =>
      case Crash =>
    }
  }

  lemma {:induction false} GrantsAlongRun(steps: seq<Step>, id: OrderId)
    requires Valid(START, steps)
    ensures GrantInv(After(START, steps), id, GrantCount(START, steps, id))
    ensures GrantCount(START, steps, id) <= 1 <==> !AnyLate(START, steps, id)
  {
    if steps != [] {
      var before, last := steps[..|steps| - 1], steps[|steps| - 1];
      GrantsAlongRun(before, id);
      StepKeepsGrants(After(START, before), last, id, GrantCount(START, before, id));
    }
  }

  /** In every run of commands, duplicates, exceptions, crashes, restarts and reconciliation
      passes, no order is granted a second submission exactly when no reservation finds it
      SUBMITTING; and the broker never receives more place_order calls than were granted. */
  lemma SubmittedOnce(steps: seq<Step>, id: OrderId)
    requires Valid(START, steps)
    ensures Count(After(START, steps).submissions, id) <= GrantCount(START, steps, id)
    ensures GrantCount(START, steps, id) <= 1 <==> !AnyLate(START, steps, id)
    ensures !AnyLate(START, steps, id) ==> Count(After(START, steps).submissions, id) <= 1
  {
    GrantsAlongRun(steps, id);
  }

  // ---- a sufficient condition the caller controls: calls for one order do not overlap ----

  ghost predicate InWindow(c: Call, id: OrderId) {
    (c.Checked? || c.Cleared?) && c.orderId == id
  }

  /** The step starts an `execute_order` call for an order that the other task is between
      reading and reserving. */
  ghost predicate Overlaps(w: World, step: Step) {
    || (step.Recover? && InWindow(w.dispatcher, step.orderId))
    || (step.Deliver? && w.queue != [] && w.queue[0].Command? && InWindow(w.recovery, w.queue[0].orderId))
  }

  ghost predicate NeverOverlaps(w: World, steps: seq<Step>)
    requires Valid(w, steps)
  {
    steps == [] || (NeverOverlaps(w, steps[..|steps| - 1]) && !Overlaps(After(w, steps[..|steps| - 1]), steps[|steps| - 1]))
  }

  ghost predicate WindowInv(w: World, id: OrderId) {
    && !(InWindow(w.dispatcher, id) && InWindow(w.recovery, id))
    && (InWindow(w.dispatcher, id) || InWindow(w.recovery, id) ==> id in w.orders && w.orders[id].status != Submitting)
  }

  lemma DeliverKeepsWindows(w: World, id: OrderId)
    requires Enabled(w, Deliver) && WindowInv(w, id) && !Overlaps(w, Deliver)
    ensures WindowInv(DeliverHead(w), id)
  {
    if w.queue[0].OrderUpdate? && w.queue[0].update.orderId in w.orders {
      EventAdvances(w.orders[w.queue[0].update.orderId], w.queue[0].update);
    }
  }

  lemma ReserveKeepsWindows(w: World, t: TaskId, id: OrderId)
    requires CallOf(w, t).Cleared? && WindowInv(w, id)
    ensures WindowInv(ReserveOrder(w, t), id)
    ensures !Late(w, Reserve(t), id)
  {
  }

  lemma CallStageKeepsWindows(w: World, step: Step, id: OrderId)
    requires step.Boundary? || step.Place? || step.Report?
    requires Enabled(w, step) && WindowInv(w, id)
    ensures WindowInv(Next(w, step), id)
  {
  }

  lemma StepKeepsWindows(w: World, step: Step, id: OrderId)
    requires Enabled(w, step) && WindowInv(w, id) && !Overlaps(w, step)
    ensures WindowInv(Next(w, step), id)
  {
    if Quiet(step) {
      QuietStep(w, step);
    } else {
      match step
      case Deliver => DeliverKeepsWindows(w, id);
      case Reserve(t) => ReserveKeepsWindows(w, t, id);
      case Boundary(_, _, _) => CallStageKeepsWindows(w, step, id);
      case Place(_, _) => CallStageKeepsWindows(w, step, id);
      case Report(_) => CallStageKeepsWindows(w, step, id);
      case Submit(_, _) =>
      case Decide(_, _) =>
      case Recover(_) =>
      case Crash =>
    }
  }

  lemma {:induction false} DisjointWindowsAlongRun(steps: seq<Step>, id: OrderId)
    requires Valid(START, steps) && NeverOverlaps(START, steps)
    ensures WindowInv(After(START, steps), id)
    ensures !AnyLate(START, steps, id)
  {
    if steps != [] {
      var before, last := steps[..|steps| - 1], steps[|steps| - 1];
      DisjointWindowsAlongRun(before, id);
      StepKeepsWindows(After(START, before), last, id);
      if last.Reserve? {
        ReserveKeepsWindows(After(START, before), last.task, id);
      }
    }
  }

  /** If no call starts inside another call's check-to-reserve window for the same order,
      the broker receives each order at most once, crashes and restarts included. */
  lemma DisjointCallsSubmitOnce(steps: seq<Step>, id: OrderId)
    requires Valid(START, steps) && NeverOverlaps(START, steps)
    ensures Count(After(START, steps).submissions, id) <= 1
  {
    DisjointWindowsAlongRun(steps, id);
    SubmittedOnce(steps, id);
  }

  // ---- a late grant really does end in a second submission ----

  /** Reserved calls agree with the stored row on whether a request can be built. */
  ghost predicate AgreesOnRoute(w: World, c: Call, id: OrderId) {
    c.Reserved? && c.orderId == id ==> id in w.orders && c.order.routable == w.orders[id].routable
  }

  /** A call in its window for a SUBMITTING, routable order is not the first claim on it. */
  ghost predicate ContendedInv(w: World, id: OrderId) {
    && AgreesOnRoute(w, w.dispatcher, id) && AgreesOnRoute(w, w.recovery, id)
    && (((InWindow(w.dispatcher, id) || InWindow(w.recovery, id))
         && id in w.orders && w.orders[id].status == Submitting && w.orders[id].routable) ==> Claims(w, id) >= 1)
    && (InWindow(w.dispatcher, id) || InWindow(w.recovery, id) ==> id in w.orders)
  }

  lemma DeliverKeepsContended(w: World, id: OrderId)
    requires Enabled(w, Deliver) && ContendedInv(w, id)
    ensures ContendedInv(DeliverHead(w), id)
  {
    if w.queue[0].OrderUpdate? && w.queue[0].update.orderId in w.orders {
      EventAdvances(w.orders[w.queue[0].update.orderId], w.queue[0].update);
    }
  }

  lemma PlaceKeepsContended(w: World, t: TaskId, reply: Option<Response>, id: OrderId)
    requires CallOf(w, t).Reserved? && ContendedInv(w, id)
    ensures ContendedInv(PlaceOrder(w, t, reply), id)
  {
    var Reserved(placed, o, clearance) := CallOf(w, t);
    CountAppend(w.submissions, Submission(placed, o.mode, o.reduceOnly, clearance), id);
  }

  lemma ReserveKeepsContended(w: World, t: TaskId, id: OrderId)
    requires CallOf(w, t).Cleared? && ContendedInv(w, id)
    ensures ContendedInv(ReserveOrder(w, t), id)
  {
  }

  lemma CallStageKeepsContended(w: World, step: Step, id: OrderId)
    requires step.Boundary? || step.Report?
    requires Enabled(w, step) && ContendedInv(w, id)
    ensures ContendedInv(Next(w, step), id)
  {
  }

  lemma StepKeepsContended(w: World, step: Step, id: OrderId)
    requires Enabled(w, step) && ContendedInv(w, id)
    ensures ContendedInv(Next(w, step), id)
  {
    if Quiet(step) {
      QuietStep(w, step);
    } else {
      match step
      case Deliver => DeliverKeepsContended(w, id);
      case Place(t, reply) => PlaceKeepsContended(w, t, reply, id);
      case Reserve(t) => ReserveKeepsContended(w, t, id);
      case Boundary(_, _, _) => CallStageKeepsContended(w, step, id);
      case Report(_) => CallStageKeepsContended(w, step, id);
      case Submit(_, _) =>
      case Decide(_, _) =>
      case Recover(_) =>
      case Crash =>
    }
  }

  lemma {:induction false} ContendedAlongRun(steps: seq<Step>, id: OrderId)
    requires Valid(START, steps)
    ensures ContendedInv(After(START, steps), id)
  {
    if steps != [] {
      var before := steps[..|steps| - 1];
      ContendedAlongRun(before, id);
      StepKeepsContended(After(START, before), steps[|steps| - 1], id);
    }
  }

  /** A call holding a reservation for a routable order can place it now. */
  lemma PlaceNow(steps: seq<Step>, t: TaskId, id: OrderId) returns (steps': seq<Step>)
    requires Valid(START, steps)
    requires var c := CallOf(After(START, steps), t); c.Reserved? && c.orderId == id && c.order.routable
    ensures steps' == steps + [Place(t, None)] && Valid(START, steps')
    ensures var w, w' := After(START, steps), After(START, steps');
            Count(w'.submissions, id) == Count(w.submissions, id) + 1 && CallOf(w', Other(t)) == CallOf(w, Other(t))
  {
    steps' := steps + [Place(t, None)];
    Extend(START, steps, Place(t, None));
    var w := After(START, steps);
    var Reserved(_, o, clearance) := CallOf(w, t);
    CountAppend(w.submissions, Submission(id, o.mode, o.reduceOnly, clearance), id);
  }

  /** A late grant leaves its own call holding a reservation next to an earlier claim. */
  lemma LateGrantContends(w: World, t: TaskId, id: OrderId)
    requires Late(w, Reserve(t), id) && ContendedInv(w, id) && w.orders[id].routable
    ensures var w' := ReserveOrder(w, t);
            && CallOf(w', t).Reserved? && CallOf(w', t).orderId == id && CallOf(w', t).order.routable
            && (Count(w'.submissions, id) >= 1
                || (var c := CallOf(w', Other(t)); c.Reserved? && c.orderId == id && c.order.routable))
  {
    assert InWindow(CallOf(w, t), id);
  }

  ghost predicate SubmitsTwice(run: seq<Step>, id: OrderId) {
    Valid(START, run) && Count(After(START, run).submissions, id) >= 2
  }

  /** From two claims, one of them this call's reservation, to two submissions. */
  lemma TwoPlacements(steps: seq<Step>, t: TaskId, id: OrderId) returns (run: seq<Step>)
    requires Valid(START, steps)
    requires var w := After(START, steps);
             && CallOf(w, t).Reserved? && CallOf(w, t).orderId == id && CallOf(w, t).order.routable
             && (Count(w.submissions, id) >= 1
                 || (var c := CallOf(w, Other(t)); c.Reserved? && c.orderId == id && c.order.routable))
    ensures steps <= run && SubmitsTwice(run, id)
  {
    run := PlaceNow(steps, t, id);
    if Count(After(START, run).submissions, id) < 2 {
      run := PlaceNow(run, Other(t), id);
    }
  }

  /** After any run, if the next step is a late grant for an order whose request can be built,
      the run continues to two place_order calls for it: the condition of SubmittedOnce
      cannot be weakened. */
  lemma LateGrantSubmitsTwice(steps: seq<Step>, t: TaskId, id: OrderId)
    requires Valid(START, steps) && Late(After(START, steps), Reserve(t), id)
    requires After(START, steps).orders[id].routable
    ensures exists run :: steps <= run && SubmitsTwice(run, id)
  {
    ContendedAlongRun(steps, id);
    LateGrantContends(After(START, steps), t, id);
    Extend(START, steps, Reserve(t));
    var run := TwoPlacements(steps + [Reserve(t)], t, id);
    assert steps <= steps + [Reserve(t)] <= run;
  }

  lemma RaceToWindows(id: OrderId, o: Order) returns (steps: seq<Step>)
    requires o.status == Validating && o.filled == 0 && o.remaining == o.quantity
    ensures Valid(START, steps)
    ensures var w := After(START, steps); var approved := o.(status := Approved);
            w.orders == map[id := approved] && w.dispatcher == w.recovery == Checked(id, approved)
  {
    var checked := ApprovedAndChecked(id, o);
    Extend(START, checked, Recover(id));
    steps := checked + [Recover(id)];
  }

  lemma RaceToClearances(id: OrderId, o: Order) returns (steps: seq<Step>)
    requires o.status == Validating && o.filled == 0 && o.remaining == o.quantity
    ensures Valid(START, steps)
    ensures var w := After(START, steps);
            w.orders == map[id := o.(status := Approved)]
            && w.dispatcher.Cleared? && w.recovery.Cleared? && w.dispatcher.orderId == w.recovery.orderId == id
  {
    var before := RaceToWindows(id, o);
    Extend(START, before, Boundary(Dispatcher, true, true));
    Extend(START, before + [Boundary(Dispatcher, true, true)], Boundary(Recovery, true, true));
    steps := before + [Boundary(Dispatcher, true, true)] + [Boundary(Recovery, true, true)];
  }

  /** Such a run exists: start-up recovery reads the order while the dispatcher's call for
      the same order is between its check and its reservation. */
  lemma RecoveryRacesDispatcher(id: OrderId, o: Order)
    requires o.status == Validating && o.filled == 0 && o.remaining == o.quantity && o.routable
    ensures exists run :: SubmitsTwice(run, id)
  {
    var steps := RaceToClearances(id, o);
    Extend(START, steps, Reserve(Dispatcher));
    LateGrantSubmitsTwice(steps + [Reserve(Dispatcher)], Recovery, id);
  }

  // ---- what a LIVE submission passed first ----

  ghost predicate ClearedFor(o: Order, clearance: Clearance) {
    o.mode == Live && !o.reduceOnly ==> clearance == Passed
  }

  /** What each stage of a call remembers about the health and gate checks. */
  ghost predicate CallIsCleared(w: World, c: Call) {
    match c
    case Checked(id, o) => id in w.orders && o.mode == w.orders[id].mode && o.reduceOnly == w.orders[id].reduceOnly
    case Cleared(id, clearance) => id in w.orders && ClearedFor(w.orders[id], clearance)
    case Reserved(id, o, clearance) =>
      ClearedFor(o, clearance) && id in w.orders && o.mode == w.orders[id].mode && o.reduceOnly == w.orders[id].reduceOnly
    case _ => true
  }

  /** The submission carries its order's mode and reduce-only flag, and the clearance these call for. */
  ghost predicate SubmissionIsCleared(w: World, s: Submission) {
    && (s.mode == Live && !s.reduceOnly ==> s.clearance == Passed)
    && s.orderId in w.orders && s.mode == w.orders[s.orderId].mode && s.reduceOnly == w.orders[s.orderId].reduceOnly
  }

  ghost predicate ClearanceInv(w: World) {
    && CallIsCleared(w, w.dispatcher) && CallIsCleared(w, w.recovery)
    && forall i :: 0 <= i < |w.submissions| ==> SubmissionIsCleared(w, w.submissions[i])
  }

  lemma DeliverKeepsClearance(w: World)
    requires Enabled(w, Deliver) && ClearanceInv(w)
    ensures ClearanceInv(DeliverHead(w))
  {
    if w.queue[0].OrderUpdate? && w.queue[0].update.orderId in w.orders {
      EventAdvances(w.orders[w.queue[0].update.orderId], w.queue[0].update);
    }
  }

  lemma ReserveKeepsClearance(w: World, t: TaskId)
    requires CallOf(w, t).Cleared? && ClearanceInv(w)
    ensures ClearanceInv(ReserveOrder(w, t))
  {
  }

  lemma BoundaryKeepsClearance(w: World, t: TaskId, healthy: bool, authorized: bool)
    requires CallOf(w, t).Checked? && ClearanceInv(w)
    ensures ClearanceInv(PassBoundary(w, t, healthy, authorized))
  {
  }

  lemma CallEndsKeepClearance(w: World, step: Step)
    requires step.Report? || step.Recover?
    requires Enabled(w, step) && ClearanceInv(w)
    ensures ClearanceInv(Next(w, step))
  {
  }

  lemma PlaceKeepsClearance(w: World, t: TaskId, reply: Option<Response>)
    requires CallOf(w, t).Reserved? && ClearanceInv(w)
    ensures ClearanceInv(PlaceOrder(w, t, reply))
  {
  }

  lemma StepKeepsClearance(w: World, step: Step)
    requires Enabled(w, step) && ClearanceInv(w)
    ensures ClearanceInv(Next(w, step))
  {
    if Quiet(step) {
      QuietStep(w, step);
    } else {
      match step
      case Deliver => DeliverKeepsClearance(w);
      case Boundary(t, healthy, authorized) => BoundaryKeepsClearance(w, t, healthy, authorized);
      case Report(_) => CallEndsKeepClearance(w, step);
      case Recover(_) => CallEndsKeepClearance(w, step);
      case Reserve(t) => ReserveKeepsClearance(w, t);
      case Place(t, reply) => PlaceKeepsClearance(w, t, reply);
      case Submit(_, _) =>
      case Decide(_, _) =>
      case Crash =>
    }
  }

  lemma {:induction false} ClearanceAlongRun(steps: seq<Step>)
    requires Valid(START, steps)
    ensures ClearanceInv(After(START, steps))
  {
    if steps != [] {
      var before := steps[..|steps| - 1];
      ClearanceAlongRun(before);
      StepKeepsClearance(After(START, before), steps[|steps| - 1]);
    }
  }

  /** In every run each submission is of a stored order and carries its mode and reduce-only flag. */
  lemma SubmissionsMatchTheirOrders(steps: seq<Step>, i: nat)
    requires Valid(START, steps) && i < |After(START, steps).submissions|
    ensures var w := After(START, steps); var s := w.submissions[i];
            s.orderId in w.orders && s.mode == w.orders[s.orderId].mode && s.reduceOnly == w.orders[s.orderId].reduceOnly
  {
    ClearanceAlongRun(steps);
  }

  /** After the first `k` steps the task is in a call for this order. */
  ghost predicate InCall(steps: seq<Step>, k: nat, t: TaskId, id: OrderId)
    requires k <= |steps|
  {
    Valid(START, steps[..k]) && var c := CallOf(After(START, steps[..k]), t); c != Idle && c.orderId == id
  }

  /** Step `b` is the boundary of the call for this LIVE order that the task is still in: both checks
      passed there, and the task has not left the call since. */
  ghost predicate ClearedAt(steps: seq<Step>, t: TaskId, id: OrderId, b: nat) {
    && b < |steps| && steps[b] == Boundary(t, true, true)
    && Valid(START, steps[..b])
    && (var c := CallOf(After(START, steps[..b]), t);
        c.Checked? && c.orderId == id && c.order.mode == Live && !c.order.reduceOnly)
    && forall k :: b < k <= |steps| ==> InCall(steps, k, t, id)
  }

  ghost predicate HoldsPass(c: Call, id: OrderId) {
    (c.Cleared? || c.Reserved?) && c.orderId == id && c.clearance == Passed
  }

  lemma PassComesFrom(w: World, step: Step, t: TaskId, id: OrderId)
    requires Enabled(w, step) && HoldsPass(CallOf(Next(w, step), t), id)
    ensures HoldsPass(CallOf(w, t), id)
         || (step == Boundary(t, true, true)
             && var c := CallOf(w, t); c.Checked? && c.orderId == id && c.order.mode == Live && !c.order.reduceOnly)
  {
  }

  lemma {:induction false} PassedAtBoundary(steps: seq<Step>, t: TaskId, id: OrderId) returns (b: nat)
    requires Valid(START, steps) && HoldsPass(CallOf(After(START, steps), t), id)
    ensures ClearedAt(steps, t, id, b)
  {
    var before, last := steps[..|steps| - 1], steps[|steps| - 1];
    PassComesFrom(After(START, before), last, t, id);
    if HoldsPass(CallOf(After(START, before), t), id) {
      b := PassedAtBoundary(before, t, id);
      assert steps[..b] == before[..b];
    } else {
      b := |before|;
    }
    assert steps[..|steps|] == steps;
    forall k | b < k <= |steps|
      ensures InCall(steps, k, t, id)
    {
      if k < |steps| {
        assert InCall(before, k, t, id);
        assert steps[..k] == before[..k];
      }
    }
  }

  /** Step `p` of the run is the place_order call that became submission `i`. */
  ghost predicate MadeAt(steps: seq<Step>, p: nat, t: TaskId, i: nat, s: Submission) {
    && p < |steps| && steps[p].Place? && steps[p].task == t
    && Valid(START, steps[..p]) && Valid(START, steps[..p + 1])
    && |After(START, steps[..p]).submissions| == i
    && After(START, steps[..p + 1]).submissions == After(START, steps[..p]).submissions + [s]
  }

  lemma MadeInPrefix(steps: seq<Step>, n: nat, p: nat, t: TaskId, i: nat, s: Submission)
    requires n <= |steps| && MadeAt(steps[..n], p, t, i, s)
    ensures MadeAt(steps, p, t, i, s)
  {
    assert steps[..n][p] == steps[p] && steps[..n][..p] == steps[..p] && steps[..n][..p + 1] == steps[..p + 1];
  }

  lemma SubmissionsGrow(w: World, step: Step)
    requires Enabled(w, step)
    ensures Next(w, step).submissions == w.submissions
         || (step.Place? && CallOf(w, step.task).Reserved?
             && var c := CallOf(w, step.task);
                Next(w, step).submissions
                == w.submissions + [Submission(c.orderId, c.order.mode, c.order.reduceOnly, c.clearance)])
  {
    if Quiet(step) {
      QuietStep(w, step);
    }
  }

  /** A LIVE call about to place its order, not reduce-only, was cleared earlier. */
  lemma ReservedWasCleared(steps: seq<Step>, t: TaskId) returns (b: nat)
    requires Valid(START, steps) && CallOf(After(START, steps), t).Reserved?
    requires var o := CallOf(After(START, steps), t).order; o.mode == Live && !o.reduceOnly
    ensures ClearedAt(steps, t, CallOf(After(START, steps), t).orderId, b)
  {
    ClearanceAlongRun(steps);
    var c := CallOf(After(START, steps), t);
    assert ClearedFor(c.order, c.clearance);
    b := PassedAtBoundary(steps, t, c.orderId);
  }

  /** Every LIVE submission that is not reduce-only, in every run, is made by a call that earlier passed
      the runtime health check and the LIVE gate for that very order, without a break in between. */
  lemma {:induction false} LiveSubmissionsWereCleared(steps: seq<Step>, i: nat) returns (p: nat, t: TaskId, b: nat)
    requires Valid(START, steps) && i < |After(START, steps).submissions|
    requires var s := After(START, steps).submissions[i]; s.mode == Live && !s.reduceOnly
    ensures var s := After(START, steps).submissions[i];
            b < p && MadeAt(steps, p, t, i, s) && ClearedAt(steps[..p], t, s.orderId, b)
  {
    var before, last := steps[..|steps| - 1], steps[|steps| - 1];
    var w, s := After(START, before), After(START, steps).submissions[i];
    SubmissionsGrow(w, last);
    if i < |w.submissions| {
      assert w.submissions[i] == s;
      p, t, b := LiveSubmissionsWereCleared(before, i);
      MadeInPrefix(steps, |before|, p, t, i, s);
      assert steps[..p] == before[..p];
    } else {
      p, t := |before|, last.task;
      b := ReservedWasCleared(before, t);
      assert steps[..p] == before && steps[..p + 1] == steps;
    }
  }

  lemma FailedSafeEnds(row: Order, u: BrokerEvent, later: BrokerEvent)
    requires u.status == "FAILED_SAFE"
    ensures var row' := ApplyBrokerEvent(row, u);
            && row'.status == (if Terminal(row.status) then row.status else FailedSafe)
            && ApplyBrokerEvent(row', later).status == row'.status
  {
    TableByTarget(row.status, FailedSafe);
    EventAdvances(ApplyBrokerEvent(row, u), later);
  }

  /** A LIVE call refused at the boundary ends without submitting. Its one event, whenever it is delivered
      and whatever the order's row is by then, leaves the order FAILED_SAFE, unless it was terminal
      already, and no later broker event changes that. */
  lemma RefusedCallFailsSafe(w: World, t: TaskId, healthy: bool, authorized: bool, row: Order, later: BrokerEvent)
    requires CallOf(w, t).Checked? && CallOf(w, t).order.mode == Live && !CallOf(w, t).order.reduceOnly
    requires !(healthy && authorized)
    ensures var w' := Next(w, Boundary(t, healthy, authorized));
            && CallOf(w', t) == Idle && w'.submissions == w.submissions
            && |w'.queue| == |w.queue| + 1 && w'.queue[..|w.queue|] == w.queue
            && var e := w'.queue[|w.queue|];
               && e.OrderUpdate? && e.update.orderId == CallOf(w, t).orderId
               && var row' := ApplyBrokerEvent(row, e.update);
                  && row'.status == (if Terminal(row.status) then row.status else FailedSafe)
                  && ApplyBrokerEvent(row', later).status == row'.status
  {
    FailedSafeEnds(row, Next(w, Boundary(t, healthy, authorized)).queue[|w.queue|].update, later);
  }
}
