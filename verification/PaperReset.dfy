/** The all-or-nothing removal of PAPER orders from the OMS database. */
module PaperReset {
  import opened Common

  const PAPER := "PAPER"
  const BATCH: nat := 400

  datatype Order = Order(orderId: string, intentId: string, mode: string)

  datatype Intent = Intent(intentId: string, mode: string)

  datatype OrderEvent = OrderEvent(eventId: string, orderId: string)

  datatype Payload = Unparseable | NotAnObject | Object(orderId: Option<string>, intentId: Option<string>, mode: Option<string>)

  datatype OutboxEvent = OutboxEvent(eventId: string, payload: Payload)

  /** `complete` says whether the schema has all five tables. */
  datatype Tables = Tables(
    complete: bool,
    orders: seq<Order>,
    intents: seq<Intent>,
    events: seq<OrderEvent>,
    outbox: seq<OutboxEvent>,
    processed: seq<string>)

  datatype Error =
    | MissingTable
    | Mismatched
    | BadPayload(eventId: string)
    | ForeignMode(eventId: string)
    | Changed
    | Integrity
    | PaperRemains

  datatype Plan = Plan(orderIds: set<string>, intentIds: set<string>, outboxIds: set<string>)

  datatype Counts = Counts(events: nat, processed: nat, outbox: nat, orders: nat, intents: nat)

  function OrderKey(o: Order): string { o.orderId }

  function IntentKey(i: Intent): string { i.intentId }

  function EventOrder(e: OrderEvent): string { e.orderId }

  function OutboxKey(e: OutboxEvent): string { e.eventId }

  function Itself(s: string): string { s }

  // ---- the plan ----

  /** The row the LEFT JOIN does not complain about: its intent exists and has the order's mode. */
  predicate Matched(o: Order, intents: seq<Intent>) {
    && (exists k :: 0 <= k < |intents| && intents[k].intentId == o.intentId)
    && (forall k :: 0 <= k < |intents| && intents[k].intentId == o.intentId ==> intents[k].mode == o.mode)
  }

  predicate AllMatched(t: Tables) {
    forall k :: 0 <= k < |t.orders| ==> Matched(t.orders[k], t.intents)
  }

  function PaperOrderIds(t: Tables): set<string> {
    set k | 0 <= k < |t.orders| && t.orders[k].mode == PAPER :: t.orders[k].orderId
  }

  function PaperIntentIds(t: Tables): set<string> {
    set k | 0 <= k < |t.intents| && t.intents[k].mode == PAPER :: t.intents[k].intentId
  }

  predicate Holds(id: Option<string>, ids: set<string>) {
    id.Some? && id.value in ids
  }

  predicate Associated(p: Payload, orderIds: set<string>, intentIds: set<string>) {
    p.Object? && (Holds(p.orderId, orderIds) || Holds(p.intentId, intentIds))
  }

  /** What one outbox row does to the plan. */
  function OutboxRow(e: OutboxEvent, orderIds: set<string>, intentIds: set<string>): Result<set<string>, Error> {
    var p := e.payload;
    if !p.Object? then Err(BadPayload(e.eventId))
    else if Associated(p, orderIds, intentIds) && p.mode.Some? && p.mode.value != PAPER then Err(ForeignMode(e.eventId))
    else if p.mode == Some(PAPER) || Associated(p, orderIds, intentIds) then Ok({e.eventId})
    else Ok({})
  }

  /** The ids of a scan of the outbox, or the complaint of its first bad row. */
  function OutboxIds(outbox: seq<OutboxEvent>, orderIds: set<string>, intentIds: set<string>): Result<set<string>, Error> {
    if outbox == [] then Ok({})
    else
      var before := OutboxIds(outbox[..|outbox| - 1], orderIds, intentIds);
      if before.Err? then before
      else
        var row := OutboxRow(outbox[|outbox| - 1], orderIds, intentIds);
        if row.Err? then row else Ok(before.value + row.value)
  }

  function PlanOf(t: Tables): Result<Plan, Error> {
    if !t.complete then Err(MissingTable)
    else if !AllMatched(t) then Err(Mismatched)
    else
      var outbox := OutboxIds(t.outbox, PaperOrderIds(t), PaperIntentIds(t));
      if outbox.Err? then Err(outbox.error) else Ok(Plan(PaperOrderIds(t), PaperIntentIds(t), outbox.value))
  }

  // ---- the cleaned database ----

  function Without<R>(rows: seq<R>, field: R -> string, ids: set<string>): seq<R> {
    if rows == [] then []
    else
      var before, r := Without(rows[..|rows| - 1], field, ids), rows[|rows| - 1];
      if field(r) in ids then before else before + [r]
  }

  function Cleaned(t: Tables, plan: Plan): Tables {
    t.(events := Without(t.events, EventOrder, plan.orderIds),
       processed := Without(t.processed, Itself, plan.outboxIds),
       outbox := Without(t.outbox, OutboxKey, plan.outboxIds),
       orders := Without(t.orders, OrderKey, plan.orderIds),
       intents := Without(t.intents, IntentKey, plan.intentIds))
  }

  function Referenced<R>(rows: seq<R>, field: R -> string): set<string> {
    set k | 0 <= k < |rows| :: field(rows[k])
  }

  function OrderIntent(o: Order): string { o.intentId }

  /** What `PRAGMA foreign_key_check` looks for. */
  predicate ForeignKeysHold(t: Tables) {
    && Referenced(t.events, EventOrder) <= Referenced(t.orders, OrderKey)
    && Referenced(t.orders, OrderIntent) <= Referenced(t.intents, IntentKey)
  }

  /** Primary keys. */
  ghost predicate Keyed(t: Tables) {
    && (forall i, j :: 0 <= i < j < |t.orders| ==> t.orders[i].orderId != t.orders[j].orderId)
    && (forall i, j :: 0 <= i < j < |t.intents| ==> t.intents[i].intentId != t.intents[j].intentId)
    && (forall i, j :: 0 <= i < j < |t.outbox| ==> t.outbox[i].eventId != t.outbox[j].eventId)
  }

  lemma ReferencedAppend<R>(rows: seq<R>, field: R -> string, r: R)
    ensures Referenced(rows + [r], field) == Referenced(rows, field) + {field(r)}
  {
    var all := rows + [r];
    assert all[|rows|] == r;
    forall s | s in Referenced(rows, field)
      ensures s in Referenced(all, field)
    {
      var k :| 0 <= k < |rows| && field(rows[k]) == s;
      assert all[k] == rows[k];
    }
  }

  /** An enumeration of a set of ids. */
  method Listing(ids: set<string>) returns (keys: seq<string>)
    ensures Referenced(keys, Itself) == ids
  {
    keys := [];
    var rest := ids;
    while rest != {}
      invariant rest <= ids && Referenced(keys, Itself) == ids - rest
    {
      var id :| id in rest;
      ReferencedAppend(keys, Itself, id);
      keys := keys + [id];
      rest := rest - {id};
    }
  }

  lemma {:induction false} WithoutHolds<R>(rows: seq<R>, field: R -> string, ids: set<string>, r: R)
    ensures r in Without(rows, field, ids) <==> r in rows && field(r) !in ids
    ensures |Without(rows, field, ids)| <= |rows|
  {
    if rows != [] {
      var n := |rows| - 1;
      WithoutHolds(rows[..n], field, ids, r);
      assert rows == rows[..n] + [rows[n]];
    }
  }

  lemma Shorter<R>(rows: seq<R>, field: R -> string, ids: set<string>)
    ensures |Without(rows, field, ids)| <= |rows|
  {
    if rows != [] {
      WithoutHolds(rows, field, ids, rows[0]);
    }
  }

  /** DELETE ... WHERE field IN (batch), for one batch: refused when a row still referenced would go. */
  method DeleteBatch<R>(rows: seq<R>, field: R -> string, batch: set<string>, children: set<string>)
      returns (left: seq<R>, rowcount: nat, ok: bool)
    ensures ok <==> forall k :: 0 <= k < |rows| && field(rows[k]) in batch ==> field(rows[k]) !in children
    ensures left == if ok then Without(rows, field, batch) else rows
    ensures rowcount == |rows| - |left|
  {
    Shorter(rows, field, batch);
    ok := forall k :: 0 <= k < |rows| && field(rows[k]) in batch ==> field(rows[k]) !in children;
    left := if ok then Without(rows, field, batch) else rows;
    rowcount := |rows| - |left|;
  }

  lemma {:induction false} WithoutTwice<R>(rows: seq<R>, field: R -> string, a: set<string>, b: set<string>)
    ensures Without(Without(rows, field, a), field, b) == Without(rows, field, a + b)
  {
    if rows != [] {
      var n := |rows| - 1;
      WithoutTwice(rows[..n], field, a, b);
      if field(rows[n]) !in a {
        var before := Without(rows[..n], field, a);
        assert (before + [rows[n]])[..|before|] == before;
      }
    }
  }

  lemma {:induction false} WithoutNothing<R>(rows: seq<R>, field: R -> string)
    ensures Without(rows, field, {}) == rows
  {
    if rows != [] {
      WithoutNothing(rows[..|rows| - 1], field);
    }
  }

  lemma BatchesJoin(keys: seq<string>, start: nat, end: nat)
    requires start <= end <= |keys|
    ensures Referenced(keys[..end], Itself) == Referenced(keys[..start], Itself) + Referenced(keys[start..end], Itself)
  {
    var all, a, b := keys[..end], keys[..start], keys[start..end];
    forall s
      ensures s in Referenced(all, Itself) <==> s in Referenced(a, Itself) || s in Referenced(b, Itself)
    {
      if s in Referenced(all, Itself) {
        var k :| 0 <= k < end && all[k] == s;
        if k < start {
          assert a[k] == s;
        } else {
          assert b[k - start] == s;
        }
      }
      if s in Referenced(a, Itself) {
        var k :| 0 <= k < start && a[k] == s;
        assert all[k] == s;
      }
      if s in Referenced(b, Itself) {
        var k :| 0 <= k < end - start && b[k] == s;
        assert all[start + k] == s;
      }
    }
  }

  lemma BatchesWithin(keys: seq<string>, start: nat, end: nat, s: string)
    requires start <= end <= |keys| && s in Referenced(keys[start..end], Itself)
    ensures s in Referenced(keys, Itself)
  {
    var k :| 0 <= k < end - start && keys[start..end][k] == s;
    assert keys[start + k] == s;
  }

  /** The batched delete: together the batches remove exactly the rows whose field is among the values. */
  method DeleteIds<R(==)>(rows: seq<R>, field: R -> string, values: set<string>, children: set<string>)
      returns (left: seq<R>, deleted: nat, ok: bool)
    ensures values !! children ==> ok
    ensures ok ==> left == Without(rows, field, values) && deleted == |rows| - |left|
  {
    left, deleted, ok := rows, 0, true;
    WithoutNothing(rows, field);
    if values == {} {
      return;
    }
    var keys := Listing(values);
    var start := 0;
    assert Referenced(keys[..0], Itself) == {};
    while start < |keys|
      invariant 0 <= start <= |keys| && ok
      invariant left == Without(rows, field, Referenced(keys[..start], Itself))
      invariant deleted == |rows| - |left|
      decreases |keys| - start
    {
      var end := Min(start + BATCH, |keys|);
      var batch := Referenced(keys[start..end], Itself);
      BatchesJoin(keys, start, end);
      WithoutTwice(rows, field, Referenced(keys[..start], Itself), batch);
      ghost var before := left;
      var rowcount;
      left, rowcount, ok := DeleteBatch(left, field, batch, children);
      if !ok {
        assert !(values !! children) by {
          var k :| 0 <= k < |before| && field(before[k]) in batch && field(before[k]) in children;
          BatchesWithin(keys, start, end, field(before[k]));
        }
        return;
      }
      deleted := deleted + rowcount;
      start := end;
    }
    assert keys[..start] == keys;
  }

  // ---- the reset ----

  ghost predicate NoOrphanEvents(t: Tables) {
    Referenced(t.events, EventOrder) <= Referenced(t.orders, OrderKey)
  }

  /** The reported counts are the numbers of rows that went. */
  ghost predicate CountsMatch(before: Tables, after: Tables, c: Counts) {
    && |before.events| == |after.events| + c.events
    && |before.processed| == |after.processed| + c.processed
    && |before.outbox| == |after.outbox| + c.outbox
    && |before.orders| == |after.orders| + c.orders
    && |before.intents| == |after.intents| + c.intents
  }

  lemma OutboxStep(outbox: seq<OutboxEvent>, i: nat, orderIds: set<string>, intentIds: set<string>)
    requires i < |outbox|
    ensures OutboxIds(outbox[..i + 1], orderIds, intentIds)
            == var before, row := OutboxIds(outbox[..i], orderIds, intentIds), OutboxRow(outbox[i], orderIds, intentIds);
               if before.Err? then before else if row.Err? then row else Ok(before.value + row.value)
  {
    assert outbox[..i + 1][..i] == outbox[..i];
  }

  /** The first complaint is the scan's result. */
  lemma {:induction false} OutboxFails(outbox: seq<OutboxEvent>, i: nat, orderIds: set<string>, intentIds: set<string>)
    requires i <= |outbox| && OutboxIds(outbox[..i], orderIds, intentIds).Err?
    ensures OutboxIds(outbox, orderIds, intentIds) == OutboxIds(outbox[..i], orderIds, intentIds)
    decreases |outbox| - i
  {
    if i < |outbox| {
      OutboxStep(outbox, i, orderIds, intentIds);
      OutboxFails(outbox, i + 1, orderIds, intentIds);
    } else {
      assert outbox[..i] == outbox;
    }
  }

  /** Nothing left refers to a deleted id. */
  lemma WithoutReferences<R>(rows: seq<R>, field: R -> string, ids: set<string>)
    ensures Referenced(Without(rows, field, ids), field) == Referenced(rows, field) - ids
  {
    var left := Without(rows, field, ids);
    forall s
      ensures s in Referenced(left, field) <==> s in Referenced(rows, field) && s !in ids
    {
      if s in Referenced(left, field) {
        var k :| 0 <= k < |left| && field(left[k]) == s;
        WithoutHolds(rows, field, ids, left[k]);
        var j :| 0 <= j < |rows| && rows[j] == left[k];
      }
      if s in Referenced(rows, field) && s !in ids {
        var k :| 0 <= k < |rows| && field(rows[k]) == s;
        WithoutHolds(rows, field, ids, rows[k]);
        var j :| 0 <= j < |left| && left[j] == rows[k];
      }
    }
  }

  /** An order that is left is not PAPER, and neither is its intent. */
  lemma LeftOrder(t: Tables, plan: Plan, o: Order)
    requires PlanOf(t) == Ok(plan) && o in Without(t.orders, OrderKey, plan.orderIds)
    ensures o in t.orders && o.mode != PAPER && o.intentId !in plan.intentIds
    ensures exists k :: 0 <= k < |t.intents| && t.intents[k].intentId == o.intentId
    ensures forall k :: 0 <= k < |t.intents| && t.intents[k].intentId == o.intentId ==> t.intents[k].mode == o.mode
  {
    WithoutHolds(t.orders, OrderKey, plan.orderIds, o);
    var j :| 0 <= j < |t.orders| && t.orders[j] == o;
    assert o.mode == PAPER ==> o.orderId in PaperOrderIds(t);
    assert Matched(t.orders[j], t.intents);
  }

  lemma IntentsAreFree(t: Tables, plan: Plan)
    requires PlanOf(t) == Ok(plan)
    ensures plan.intentIds !! Referenced(Without(t.orders, OrderKey, plan.orderIds), OrderIntent)
  {
    var left := Without(t.orders, OrderKey, plan.orderIds);
    forall s | s in Referenced(left, OrderIntent)
      ensures s !in plan.intentIds
    {
      var k :| 0 <= k < |left| && OrderIntent(left[k]) == s;
      LeftOrder(t, plan, left[k]);
    }
  }

  lemma PlannedOrdersExist(t: Tables)
    ensures PaperOrderIds(t) <= Referenced(t.orders, OrderKey)
  {
    forall s | s in PaperOrderIds(t)
      ensures s in Referenced(t.orders, OrderKey)
    {
      var k :| 0 <= k < |t.orders| && t.orders[k].mode == PAPER && t.orders[k].orderId == s;
      assert OrderKey(t.orders[k]) == s;
    }
  }

  /** Cleaning leaves a foreign-key violation exactly when an event lacked its order before, and never
      leaves a PAPER order. */
  lemma CleanedKeys(t: Tables, plan: Plan)
    requires PlanOf(t) == Ok(plan)
    ensures ForeignKeysHold(Cleaned(t, plan)) <==> NoOrphanEvents(t)
    ensures forall k :: 0 <= k < |Cleaned(t, plan).orders| ==> Cleaned(t, plan).orders[k].mode != PAPER
  {
    var after := Cleaned(t, plan);
    WithoutReferences(t.events, EventOrder, plan.orderIds);
    WithoutReferences(t.orders, OrderKey, plan.orderIds);
    WithoutReferences(t.intents, IntentKey, plan.intentIds);
    forall k | 0 <= k < |after.orders|
      ensures after.orders[k].mode != PAPER && OrderIntent(after.orders[k]) in Referenced(after.intents, IntentKey)
    {
      LeftOrder(t, plan, after.orders[k]);
      var j :| 0 <= j < |t.intents| && t.intents[j].intentId == after.orders[k].intentId;
      assert IntentKey(t.intents[j]) in Referenced(t.intents, IntentKey);
    }
    forall s | s in Referenced(after.orders, OrderIntent)
      ensures s in Referenced(after.intents, IntentKey)
    {
      var k :| 0 <= k < |after.orders| && OrderIntent(after.orders[k]) == s;
    }
    PlannedOrdersExist(t);
    assert Referenced(t.events, EventOrder) <= Referenced(after.events, EventOrder) + plan.orderIds;
  }

  class OmsConnection {
    var db: Tables

    constructor (db: Tables)
      ensures this.db == db
    {
      this.db := db;
    }

    method PaperPlan() returns (r: Result<Plan, Error>)
      ensures r == PlanOf(db)
    {
      if !db.complete {
        return Err(MissingTable);
      }
      if !AllMatched(db) {
        return Err(Mismatched);
      }
      var orderIds, intentIds := PaperOrderIds(db), PaperIntentIds(db);
      var outboxIds: set<string> := {};
      for i := 0 to |db.outbox|
        invariant OutboxIds(db.outbox[..i], orderIds, intentIds) == Ok(outboxIds)
      {
        var event := db.outbox[i];
        OutboxStep(db.outbox, i, orderIds, intentIds);
        if !event.payload.Object? {
          OutboxFails(db.outbox, i + 1, orderIds, intentIds);
          return Err(BadPayload(event.eventId));
        }
        var mode, associated := event.payload.mode, Associated(event.payload, orderIds, intentIds);
        if associated && mode != None && mode != Some(PAPER) {
          OutboxFails(db.outbox, i + 1, orderIds, intentIds);
          return Err(ForeignMode(event.eventId));
        }
        assert outboxIds + {} == outboxIds;
        if mode == Some(PAPER) || associated {
          outboxIds := outboxIds + {event.eventId};
        }
      }
      assert db.outbox[..|db.outbox|] == db.outbox;
      return Ok(Plan(orderIds, intentIds, outboxIds));
    }

    /** One transaction: either every planned row goes and no other, or nothing changes. It succeeds
        exactly when the plan is still the current one and no event lacks its order. */
    method RemovePaperRows(plan: Plan) returns (r: Result<Counts, Error>)
      modifies this
      ensures r.Err? ==> db == old(db)
      ensures r.Ok? ==> db == Cleaned(old(db), plan)
      ensures r.Ok? <==> PlanOf(old(db)) == Ok(plan) && NoOrphanEvents(old(db))
      ensures PlanOf(old(db)).Err? ==> r == Err(PlanOf(old(db)).error)
      ensures PlanOf(old(db)).Ok? && PlanOf(old(db)).value != plan ==> r == Err(Changed)
      ensures PlanOf(old(db)) == Ok(plan) && !NoOrphanEvents(old(db)) ==> r == Err(Integrity)
      ensures r.Ok? ==> CountsMatch(old(db), db, r.value)
    {
      var begun := db;
      var current := PaperPlan();
      if current.Err? {
        return Err(current.error);
      }
      if current.value != plan {
        return Err(Changed);
      }
      r := DeletePlanned(plan);
      if r.Err? || !ForeignKeysHold(db) {
        CleanedKeys(begun, plan);
        db := begun;
        return Err(Integrity);
      }
      if exists k :: 0 <= k < |db.orders| && db.orders[k].mode == PAPER {
        r := Err(PaperRemains);
        db := begun;
        CleanedKeys(begun, plan);
        assert false;
      }
      CleanedKeys(begun, plan);
    }

    method DeletePlanned(plan: Plan) returns (r: Result<Counts, Error>)
      requires PlanOf(db) == Ok(plan)
      modifies this
      ensures r.Ok? && db == Cleaned(old(db), plan) && CountsMatch(old(db), db, r.value)
    {
      var begun := db;
      var events, outbox, processed, orders, intents, ok;
      var n1, n2, n3, n4, n5;
      events, n1, ok := DeleteIds(db.events, EventOrder, plan.orderIds, {});
      if !ok {
        return Err(Integrity);
      }
      db := db.(events := events);
      processed, n2, ok := DeleteIds(db.processed, Itself, plan.outboxIds, {});
      if !ok {
        return Err(Integrity);
      }
      db := db.(processed := processed);
      outbox, n3, ok := DeleteIds(db.outbox, OutboxKey, plan.outboxIds, {});
      if !ok {
        return Err(Integrity);
      }
      db := db.(outbox := outbox);
      WithoutReferences(begun.events, EventOrder, plan.orderIds);
      orders, n4, ok := DeleteIds(db.orders, OrderKey, plan.orderIds, Referenced(db.events, EventOrder));
      if !ok {
        return Err(Integrity);
      }
      db := db.(orders := orders);
      IntentsAreFree(begun, plan);
      intents, n5, ok := DeleteIds(db.intents, IntentKey, plan.intentIds, Referenced(db.orders, OrderIntent));
      if !ok {
        return Err(Integrity);
      }
      db := db.(intents := intents);
      return Ok(Counts(n1, n2, n3, n4, n5));
    }
  }

  // ---- what a successful reset leaves ----

  lemma PaperOrderIdsAre(t: Tables, o: Order)
    requires Keyed(t) && o in t.orders
    ensures o.orderId in PaperOrderIds(t) <==> o.mode == PAPER
  {
    var j :| 0 <= j < |t.orders| && t.orders[j] == o;
    if o.orderId in PaperOrderIds(t) {
      var k :| 0 <= k < |t.orders| && t.orders[k].mode == PAPER && t.orders[k].orderId == o.orderId;
      assert k == j;
    }
  }

  lemma PaperIntentIdsAre(t: Tables, i: Intent)
    requires Keyed(t) && i in t.intents
    ensures i.intentId in PaperIntentIds(t) <==> i.mode == PAPER
  {
    var j :| 0 <= j < |t.intents| && t.intents[j] == i;
    if i.intentId in PaperIntentIds(t) {
      var k :| 0 <= k < |t.intents| && t.intents[k].mode == PAPER && t.intents[k].intentId == i.intentId;
      assert k == j;
    }
  }

  /** Exactly the PAPER rows are gone: every other order and intent remains, and so does every event of
      an order that is not PAPER. */
  lemma OnlyPaperGoes(t: Tables, plan: Plan, o: Order, i: Intent, e: OrderEvent)
    requires PlanOf(t) == Ok(plan) && Keyed(t)
    ensures o in Cleaned(t, plan).orders <==> o in t.orders && o.mode != PAPER
    ensures i in Cleaned(t, plan).intents <==> i in t.intents && i.mode != PAPER
    ensures e in Cleaned(t, plan).events <==> e in t.events && !exists p :: p in t.orders && p.orderId == e.orderId && p.mode == PAPER
  {
    WithoutHolds(t.orders, OrderKey, plan.orderIds, o);
    WithoutHolds(t.intents, IntentKey, plan.intentIds, i);
    WithoutHolds(t.events, EventOrder, plan.orderIds, e);
    if o in t.orders {
      PaperOrderIdsAre(t, o);
    }
    if i in t.intents {
      PaperIntentIdsAre(t, i);
    }
    if e.orderId in plan.orderIds {
      var k :| 0 <= k < |t.orders| && t.orders[k].mode == PAPER && t.orders[k].orderId == e.orderId;
      assert t.orders[k] in t.orders;
    }
  }

  /** A planned outbox row is PAPER or belongs to a PAPER row, and so is every row of that kind. */
  lemma {:induction false} OutboxPlanned(outbox: seq<OutboxEvent>, orderIds: set<string>, intentIds: set<string>, e: OutboxEvent)
    requires OutboxIds(outbox, orderIds, intentIds).Ok? && e in outbox
    ensures OutboxRow(e, orderIds, intentIds).Ok?
    ensures OutboxRow(e, orderIds, intentIds).value <= OutboxIds(outbox, orderIds, intentIds).value
  {
    var n := |outbox| - 1;
    assert outbox == outbox[..n] + [outbox[n]];
    if e in outbox[..n] {
      OutboxPlanned(outbox[..n], orderIds, intentIds, e);
    }
  }

  lemma {:induction false} NothingPlanned(outbox: seq<OutboxEvent>)
    requires forall e :: e in outbox ==> OutboxRow(e, {}, {}) == Ok({})
    ensures OutboxIds(outbox, {}, {}) == Ok({})
  {
    if outbox != [] {
      NothingPlanned(outbox[..|outbox| - 1]);
      var none: set<string> := {};
      assert none + none == none;
      assert outbox[|outbox| - 1] in outbox;
    }
  }

  lemma PaperIntentListed(t: Tables, j: nat)
    requires j < |t.intents|
    ensures t.intents[j].mode == PAPER ==> IntentKey(t.intents[j]) in PaperIntentIds(t)
  {
  }

  lemma CleanedIntents(t: Tables, plan: Plan)
    requires PlanOf(t) == Ok(plan)
    ensures forall k :: 0 <= k < |Cleaned(t, plan).intents| ==> Cleaned(t, plan).intents[k].mode != PAPER
  {
    var after := Cleaned(t, plan).intents;
    forall k | 0 <= k < |after|
      ensures after[k].mode != PAPER
    {
      WithoutHolds(t.intents, IntentKey, plan.intentIds, after[k]);
      var j :| 0 <= j < |t.intents| && t.intents[j] == after[k];
      PaperIntentListed(t, j);
    }
  }

  /** Every order left has an intent left, of the order's own mode. */
  lemma CleanedMatches(t: Tables, plan: Plan)
    requires PlanOf(t) == Ok(plan)
    ensures AllMatched(Cleaned(t, plan))
  {
    var after := Cleaned(t, plan);
    forall k | 0 <= k < |after.orders|
      ensures Matched(after.orders[k], after.intents)
    {
      var o := after.orders[k];
      LeftOrder(t, plan, o);
      var j :| 0 <= j < |t.intents| && t.intents[j].intentId == o.intentId;
      WithoutHolds(t.intents, IntentKey, plan.intentIds, t.intents[j]);
      var l :| 0 <= l < |after.intents| && after.intents[l] == t.intents[j];
      forall m | 0 <= m < |after.intents| && after.intents[m].intentId == o.intentId
        ensures after.intents[m].mode == o.mode
      {
        WithoutHolds(t.intents, IntentKey, plan.intentIds, after.intents[m]);
        var n :| 0 <= n < |t.intents| && t.intents[n] == after.intents[m];
      }
    }
  }

  /** A plan made afterwards succeeds and is empty. */
  lemma FreshPlanIsEmpty(t: Tables, plan: Plan)
    requires PlanOf(t) == Ok(plan)
    ensures PlanOf(Cleaned(t, plan)) == Ok(Plan({}, {}, {}))
  {
    var after := Cleaned(t, plan);
    CleanedKeys(t, plan);
    CleanedMatches(t, plan);
    assert PaperOrderIds(after) == {};
    CleanedIntents(t, plan);
    assert PaperIntentIds(after) == {};
    forall e | e in after.outbox
      ensures OutboxRow(e, {}, {}) == Ok({})
    {
      WithoutHolds(t.outbox, OutboxKey, plan.outboxIds, e);
      OutboxPlanned(t.outbox, plan.orderIds, plan.intentIds, e);
    }
    NothingPlanned(after.outbox);
  }

  /** Running the reset again with the fresh plan changes nothing. */
  lemma SecondResetIsIdle(t: Tables, plan: Plan)
    requires PlanOf(t) == Ok(plan)
    ensures Cleaned(Cleaned(t, plan), Plan({}, {}, {})) == Cleaned(t, plan)
    ensures NoOrphanEvents(t) ==> NoOrphanEvents(Cleaned(t, plan))
  {
    var after := Cleaned(t, plan);
    WithoutNothing(after.events, EventOrder);
    WithoutNothing(after.processed, Itself);
    WithoutNothing(after.outbox, OutboxKey);
    WithoutNothing(after.orders, OrderKey);
    WithoutNothing(after.intents, IntentKey);
    CleanedKeys(t, plan);
  }

  // ---- which outbox events go ----

  /** The payload names a PAPER order or a PAPER intent. */
  ghost predicate NamesPaper(t: Tables, p: Payload)
    requires p.Object?
  {
    || (exists k :: 0 <= k < |t.orders| && t.orders[k].mode == "PAPER" && p.orderId == Some(t.orders[k].orderId))
    || (exists k :: 0 <= k < |t.intents| && t.intents[k].mode == "PAPER" && p.intentId == Some(t.intents[k].intentId))
  }

  /** The event is PAPER's: it says so, or names a PAPER row. */
  ghost predicate PaperEvent(t: Tables, e: OutboxEvent) {
    e.payload.Object? && (e.payload.mode == Some("PAPER") || NamesPaper(t, e.payload))
  }

  /** The event names a PAPER row and yet says another mode. */
  ghost predicate Contradictory(t: Tables, e: OutboxEvent) {
    e.payload.Object? && NamesPaper(t, e.payload) && e.payload.mode.Some? && e.payload.mode != Some("PAPER")
  }

  ghost predicate Acceptable(t: Tables, e: OutboxEvent) {
    e.payload.Object? && !Contradictory(t, e)
  }

  lemma AssociatedMeans(t: Tables, p: Payload)
    requires p.Object?
    ensures Associated(p, PaperOrderIds(t), PaperIntentIds(t)) <==> NamesPaper(t, p)
  {
    if Holds(p.orderId, PaperOrderIds(t)) {
      var k :| 0 <= k < |t.orders| && t.orders[k].mode == PAPER && t.orders[k].orderId == p.orderId.value;
      assert p.orderId == Some(t.orders[k].orderId);
    }
    if Holds(p.intentId, PaperIntentIds(t)) {
      var k :| 0 <= k < |t.intents| && t.intents[k].mode == PAPER && t.intents[k].intentId == p.intentId.value;
      assert p.intentId == Some(t.intents[k].intentId);
    }
  }

  lemma RowDecided(t: Tables, e: OutboxEvent)
    ensures OutboxRow(e, PaperOrderIds(t), PaperIntentIds(t))
         == if !e.payload.Object? then Err(BadPayload(e.eventId))
            else if Contradictory(t, e) then Err(ForeignMode(e.eventId))
            else Ok(if PaperEvent(t, e) then {e.eventId} else {})
  {
    if e.payload.Object? {
      AssociatedMeans(t, e.payload);
    }
  }

  /** Event `i` is the first the scan cannot accept, and this is the complaint about it. */
  ghost predicate FirstBad(t: Tables, outbox: seq<OutboxEvent>, i: nat, error: Error) {
    && i < |outbox| && !Acceptable(t, outbox[i]) && (forall j :: 0 <= j < i ==> Acceptable(t, outbox[j]))
    && error == if outbox[i].payload.Object? then ForeignMode(outbox[i].eventId) else BadPayload(outbox[i].eventId)
  }

  ghost predicate PlansExactly(t: Tables, outbox: seq<OutboxEvent>, ids: set<string>) {
    forall id :: id in ids <==> exists k :: 0 <= k < |outbox| && outbox[k].eventId == id && PaperEvent(t, outbox[k])
  }

  lemma OneMorePlanned(t: Tables, outbox: seq<OutboxEvent>, n: nat, ids: set<string>)
    requires n + 1 == |outbox| && PlansExactly(t, outbox[..n], ids)
    ensures PlansExactly(t, outbox, ids + if PaperEvent(t, outbox[n]) then {outbox[n].eventId} else {})
  {
    var all := ids + if PaperEvent(t, outbox[n]) then {outbox[n].eventId} else {};
    forall id
      ensures id in all <==> exists k :: 0 <= k < |outbox| && outbox[k].eventId == id && PaperEvent(t, outbox[k])
    {
      if k :| 0 <= k < |outbox| && outbox[k].eventId == id && PaperEvent(t, outbox[k]) {
        assert k < n ==> outbox[..n][k] == outbox[k];
      }
      if id in ids {
        var k :| 0 <= k < n && outbox[..n][k].eventId == id && PaperEvent(t, outbox[..n][k]);
        assert outbox[k].eventId == id;
      }
    }
  }

  /** The scan plans exactly PAPER's events, or complains about the first unacceptable one. */
  lemma {:induction false} ScanDecided(t: Tables, outbox: seq<OutboxEvent>)
    ensures var r := OutboxIds(outbox, PaperOrderIds(t), PaperIntentIds(t));
            && (r.Ok? ==> PlansExactly(t, outbox, r.value) && forall k :: 0 <= k < |outbox| ==> Acceptable(t, outbox[k]))
            && (r.Err? ==> exists i: nat :: FirstBad(t, outbox, i, r.error))
  {
    if outbox != [] {
      var n := |outbox| - 1;
      var before, e := outbox[..n], outbox[n];
      ScanDecided(t, before);
      RowDecided(t, e);
      var r := OutboxIds(before, PaperOrderIds(t), PaperIntentIds(t));
      if r.Err? {
        var i: nat :| FirstBad(t, before, i, r.error);
        assert forall j :: 0 <= j <= i ==> before[j] == outbox[j];
        assert FirstBad(t, outbox, i, r.error);
      } else if !Acceptable(t, e) {
        assert forall j :: 0 <= j < n ==> before[j] == outbox[j];
        assert FirstBad(t, outbox, n, OutboxRow(e, PaperOrderIds(t), PaperIntentIds(t)).error);
      } else {
        OneMorePlanned(t, outbox, n, r.value);
      }
    }
  }

  /** After a reset an outbox event remains exactly when it is not PAPER's, and a processed mark exactly when it is
      not that of a PAPER event. */
  lemma OnlyPaperEventsGo(t: Tables, plan: Plan, e: OutboxEvent, id: string)
    requires PlanOf(t) == Ok(plan) && Keyed(t)
    ensures e in Cleaned(t, plan).outbox <==> e in t.outbox && !PaperEvent(t, e)
    ensures id in Cleaned(t, plan).processed <==>
              id in t.processed && !exists k :: 0 <= k < |t.outbox| && t.outbox[k].eventId == id && PaperEvent(t, t.outbox[k])
  {
    ScanDecided(t, t.outbox);
    WithoutHolds(t.outbox, OutboxKey, plan.outboxIds, e);
    WithoutHolds(t.processed, Itself, plan.outboxIds, id);
    if e in t.outbox {
      var j :| 0 <= j < |t.outbox| && t.outbox[j] == e;
      if e.eventId in plan.outboxIds {
        var k :| 0 <= k < |t.outbox| && t.outbox[k].eventId == e.eventId && PaperEvent(t, t.outbox[k]);
        assert k == j;
      }
    }
  }

  /** The order has an intent, and every intent of its id has its mode. */
  ghost predicate Paired(t: Tables, o: Order) {
    && (exists k :: 0 <= k < |t.intents| && t.intents[k].intentId == o.intentId)
    && !exists k :: 0 <= k < |t.intents| && t.intents[k].intentId == o.intentId && t.intents[k].mode != o.mode
  }

  /** A plan exists exactly when the schema is complete, each order is paired with an intent of its mode, and every
      outbox event is a JSON object that does not contradict a PAPER row it names; else the first failing test, and
      in the scan the first failing event, is the complaint. */
  lemma PlanFailsExactly(t: Tables)
    ensures PlanOf(t).Ok? <==> t.complete && (forall k :: 0 <= k < |t.orders| ==> Paired(t, t.orders[k]))
                               && forall k :: 0 <= k < |t.outbox| ==> Acceptable(t, t.outbox[k])
    ensures PlanOf(t) == Err(MissingTable) <==> !t.complete
    ensures PlanOf(t) == Err(Mismatched) <==> t.complete && exists k :: 0 <= k < |t.orders| && !Paired(t, t.orders[k])
    ensures PlanOf(t).Err? && PlanOf(t).error !in {MissingTable, Mismatched} ==>
              exists i: nat :: FirstBad(t, t.outbox, i, PlanOf(t).error)
  {
    ScanDecided(t, t.outbox);
    forall k | 0 <= k < |t.orders|
      ensures Paired(t, t.orders[k]) <==> Matched(t.orders[k], t.intents)
    {
    }
  }
}
