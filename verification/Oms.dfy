/** The order state machine and the broker-event handler of the order management service. */
module Oms {
  import opened Common

  type OrderId = string

  datatype OrderState =
    | Created | Validating | RiskRejected | Approved | Submitting | SubmissionUnknown
    | Acknowledged | Open | PartiallyFilled | Filled | Cancelled | Rejected | Expired | FailedSafe

  datatype TradingMode = Shadow | Paper | Live

  /** One row of `broker_orders`. `routable` says whether a broker request can be built
      from the instrument id (the Breeze contract pattern). */
  datatype Order = Order(
    quantity: nat,
    filled: nat,
    remaining: int,
    price: real,
    averagePrice: real,
    brokerId: Option<string>,
    status: OrderState,
    mode: TradingMode,
    reduceOnly: bool,
    routable: bool)

  /** Payload of the `broker.order.event.v1` topic. */
  datatype BrokerEvent = BrokerEvent(
    orderId: OrderId,
    brokerId: Option<string>,
    status: string,
    filled: nat,
    averagePrice: real)

  /** The successor table of the fourteen-state machine. */
  function Successors(from: OrderState): set<OrderState> {
    match from
    case Created => {Validating, Rejected, FailedSafe}
    case Validating => {Approved, RiskRejected, FailedSafe}
    case Approved => {Submitting, Acknowledged, Open, Filled, SubmissionUnknown, Cancelled, FailedSafe}
    case Submitting => {Acknowledged, Open, Filled, PartiallyFilled, Rejected, SubmissionUnknown, FailedSafe}
    case SubmissionUnknown => {Acknowledged, Open, Filled, PartiallyFilled, Rejected, Cancelled, FailedSafe}
    case Acknowledged => {Open, PartiallyFilled, Filled, Cancelled, Rejected, Expired, FailedSafe}
    case Open => {PartiallyFilled, Filled, Cancelled, Expired, FailedSafe}
    case PartiallyFilled => {PartiallyFilled, Filled, Cancelled, Expired, FailedSafe}
    case _ => {}
  }

  predicate CanTransition(from: OrderState, to: OrderState) {
    to in Successors(from)
  }

  /** The state a broker status asks for; an unlisted status asks for no change. */
  function TargetState(current: OrderState, status: string, filled: nat): OrderState {
    if status == "FILLED" then Filled
    else if status == "PARTIAL" || status == "PARTIALLY_FILLED" || status == "PARTIALLY FILLED" then PartiallyFilled
    else if status == "OPEN" || status == "PLACED" then (if filled > 0 then PartiallyFilled else Open)
    else if status == "CANCELLED" then Cancelled
    else if status == "REJECTED" then Rejected
    else if status == "EXPIRED" then Expired
    else if status == "FAILED_SAFE" then FailedSafe
    else if status == "UNKNOWN" then SubmissionUnknown
    else current
  }

  /** What the handler leaves in the row. A refused transition raises, and the dispatcher
      swallows the exception, so the row is unchanged. */
  function ApplyBrokerEvent(o: Order, ev: BrokerEvent): Order {
    var target := TargetState(o.status, ev.status, ev.filled);
    var stateChanged := target != o.status;
    var fillChanged :=
      ev.filled != o.filled || ev.averagePrice != o.averagePrice ||
      (ev.brokerId.Some? && ev.brokerId != o.brokerId);
    if !(stateChanged || fillChanged) then o
    else if stateChanged && !CanTransition(o.status, target) then o
    else o.(
      brokerId := if ev.brokerId.Some? then ev.brokerId else o.brokerId,
      status := target,
      filled := ev.filled,
      remaining := Max(0, o.quantity - ev.filled),
      averagePrice := if ev.averagePrice != 0.0 then ev.averagePrice else o.averagePrice)
  }

  function ApplyBrokerEvents(o: Order, evs: seq<BrokerEvent>): Order {
    if evs == [] then o
    else ApplyBrokerEvent(ApplyBrokerEvents(o, evs[..|evs| - 1]), evs[|evs| - 1])
  }

  predicate Terminal(s: OrderState) {
    Successors(s) == {}
  }

  /** How far along its life a state is; every table edge but the self-loop climbs. */
  function Rank(s: OrderState): nat {
    match s
    case Created => 0
    case Validating => 1
    case Approved => 2
    case Submitting => 3
    case SubmissionUnknown => 4
    case Acknowledged => 5
    case Open => 6
    case PartiallyFilled => 7
    case _ => 8
  }

  lemma EdgesClimb(from: OrderState, to: OrderState)
    requires CanTransition(from, to)
    ensures Rank(from) < Rank(to) || from == to == PartiallyFilled
  {
  }

  /** The states each state can be entered from. */
  ghost function Sources(to: OrderState): set<OrderState> {
    match to
    case Created => {}
    case Validating => {Created}
    case RiskRejected => {Validating}
    case Approved => {Validating}
    case Submitting => {Approved}
    case SubmissionUnknown => {Approved, Submitting}
    case Acknowledged => {Approved, Submitting, SubmissionUnknown}
    case Open => {Approved, Submitting, SubmissionUnknown, Acknowledged}
    case PartiallyFilled => {Submitting, SubmissionUnknown, Acknowledged, Open, PartiallyFilled}
    case Filled => {Approved, Submitting, SubmissionUnknown, Acknowledged, Open, PartiallyFilled}
    case Cancelled => {Approved, SubmissionUnknown, Acknowledged, Open, PartiallyFilled}
    case Rejected => {Created, Submitting, SubmissionUnknown, Acknowledged}
    case Expired => {Acknowledged, Open, PartiallyFilled}
    case FailedSafe => {Created, Validating, Approved, Submitting, SubmissionUnknown, Acknowledged, Open, PartiallyFilled}
  }

  lemma TableByTarget(from: OrderState, to: OrderState)
    ensures CanTransition(from, to) <==> from in Sources(to)
  {
  }

  /** The row is now in state `to` and carries what the event reports. */
  ghost predicate Moved(o: Order, o': Order, ev: BrokerEvent, to: OrderState) {
    && o'.status == to
    && o'.filled == ev.filled
    && o'.averagePrice == (if ev.averagePrice == 0.0 then o.averagePrice else ev.averagePrice)
    && o'.brokerId == (if ev.brokerId.Some? then ev.brokerId else o.brokerId)
    && (o' == o || o'.remaining == Max(0, o.quantity - ev.filled))
  }

  /** The words that ask for a state. */
  ghost const WORDS := {"FILLED", "PARTIAL", "PARTIALLY_FILLED", "PARTIALLY FILLED", "OPEN", "PLACED",
                        "CANCELLED", "REJECTED", "EXPIRED", "FAILED_SAFE", "UNKNOWN"}

  /** What a broker's word does to an order that is submitted and not yet terminal: where it leads, or that
      it is refused and changes nothing. CANCELLED and EXPIRED are refused while the order is SUBMITTING, and
      EXPIRED while its submission is unknown. */
  lemma WordMovesOrder(o: Order, ev: BrokerEvent)
    requires o.status in {Submitting, SubmissionUnknown, Acknowledged, Open, PartiallyFilled}
    ensures var o', word := ApplyBrokerEvent(o, ev), ev.status;
      && (word == "FILLED" ==> Moved(o, o', ev, Filled))
      && (word in {"PARTIAL", "PARTIALLY_FILLED", "PARTIALLY FILLED"} ==> Moved(o, o', ev, PartiallyFilled))
      && (word in {"OPEN", "PLACED"} && ev.filled > 0 ==> Moved(o, o', ev, PartiallyFilled))
      && (word in {"OPEN", "PLACED"} && ev.filled == 0 ==>
            if o.status == PartiallyFilled then o' == o else Moved(o, o', ev, Open))
      && (word == "CANCELLED" ==> if o.status == Submitting then o' == o else Moved(o, o', ev, Cancelled))
      && (word == "REJECTED" ==> if o.status in {Open, PartiallyFilled} then o' == o else Moved(o, o', ev, Rejected))
      && (word == "EXPIRED" ==>
            if o.status in {Submitting, SubmissionUnknown} then o' == o else Moved(o, o', ev, Expired))
      && (word == "FAILED_SAFE" ==> Moved(o, o', ev, FailedSafe))
      && (word == "UNKNOWN" ==>
            if o.status in {Submitting, SubmissionUnknown} then Moved(o, o', ev, SubmissionUnknown) else o' == o)
      && (word !in WORDS ==> Moved(o, o', ev, o.status))
  {
    TableByTarget(o.status, TargetState(o.status, ev.status, ev.filled));
  }

  /** What any one event keeps: the order's identity and terms, the split of its quantity,
      and the direction of its life. */
  predicate Advances(o: Order, o': Order) {
    && Rank(o.status) <= Rank(o'.status)
    && (o'.status == o.status || o'.status !in {Created, Validating, Approved, Submitting, RiskRejected})
    && (Terminal(o.status) ==> o'.status == o.status)
    && (o.remaining == Max(0, o.quantity - o.filled) ==> o'.remaining == Max(0, o'.quantity - o'.filled))
    && o'.quantity == o.quantity && o'.price == o.price && o'.mode == o.mode
    && o'.reduceOnly == o.reduceOnly && o'.routable == o.routable
  }

  lemma EventAdvances(o: Order, ev: BrokerEvent)
    ensures Advances(o, ApplyBrokerEvent(o, ev))
  {
    var target := TargetState(o.status, ev.status, ev.filled);
    if CanTransition(o.status, target) {
      EdgesClimb(o.status, target);
    }
    assert target == o.status || target !in {Created, Validating, Approved, Submitting, RiskRejected};
  }

  /** Nothing the broker reports, in any order and any number, moves an order backwards,
      re-approves it, re-opens a terminal order, or separates filled from remaining. */
  lemma {:induction false} BrokerHistoryIsMonotone(o: Order, evs: seq<BrokerEvent>)
    ensures Advances(o, ApplyBrokerEvents(o, evs))
  {
    if evs != [] {
      BrokerHistoryIsMonotone(o, evs[..|evs| - 1]);
      EventAdvances(ApplyBrokerEvents(o, evs[..|evs| - 1]), evs[|evs| - 1]);
    }
  }
}
