/** What a reconciliation pass learns from the broker about one order. */
module Evidence {
  import opened Common
  import opened Oms
  import opened Protocol

  datatype Trade = Trade(brokerId: string, orderId: OrderId, quantity: int, price: real)

  /** The broker's answers during one pass. A call about an order in `failing` raises. */
  datatype Gateway = Gateway(
    byBrokerId: map<string, Response>,
    byClientId: map<OrderId, Response>,
    trades: seq<Trade>,
    failing: set<OrderId>)

  function Matches(trades: seq<Trade>, id: OrderId): seq<Trade> {
    if trades == [] then []
    else (if trades[0].orderId == id then [trades[0]] else []) + Matches(trades[1..], id)
  }

  function TotalQuantity(trades: seq<Trade>): nat {
    if trades == [] then 0 else Max(0, trades[0].quantity) + TotalQuantity(trades[1..])
  }

  /** What a quantity is worth at a price; negative quantities count as none. */
  function Worth(quantity: int, price: real): real {
    Max(0, quantity) as real * price
  }

  function Notional(trades: seq<Trade>): real {
    if trades == [] then 0.0 else Worth(trades[0].quantity, trades[0].price) + Notional(trades[1..])
  }

  /** The secondary recovery path: a response rebuilt from the matching trades. */
  function FromTrades(id: OrderId, o: Order, trades: seq<Trade>): Option<Response> {
    var matched := Matches(trades, id);
    if matched == [] then None
    else
      var filled := TotalQuantity(matched);
      Some(Response(
        if filled >= o.quantity then "FILLED" else "PARTIALLY_FILLED",
        Some(matched[0].brokerId),
        Min(filled, o.quantity),
        if filled > 0 then Notional(matched) / filled as real else 0.0))
  }

  /** The answer the pass acts on; no answer never causes anything. */
  function EvidenceFor(id: OrderId, o: Order, g: Gateway): Option<Response> {
    if id in g.failing then None
    else if o.brokerId.Some? then
      if o.brokerId.value in g.byBrokerId then Some(g.byBrokerId[o.brokerId.value]) else None
    else if o.status in {Submitting, SubmissionUnknown} then
      if id in g.byClientId then Some(g.byClientId[id]) else FromTrades(id, o, g.trades)
    else None
  }

  ghost predicate PricedWithin(trades: seq<Trade>, low: real, high: real) {
    forall i :: 0 <= i < |trades| && trades[i].quantity > 0 ==> low <= trades[i].price <= high
  }

  /** The notional the trades would have at one price. */
  function NotionalAt(trades: seq<Trade>, price: real): real {
    if trades == [] then 0.0 else Worth(trades[0].quantity, price) + NotionalAt(trades[1..], price)
  }

  lemma WorthBetween(quantity: int, low: real, price: real, high: real)
    requires quantity > 0 ==> low <= price <= high
    ensures Worth(quantity, low) <= Worth(quantity, price) <= Worth(quantity, high)
  {
    if quantity > 0 {
      var q := quantity as real;
      assert q * low <= q * price;
      assert q * price <= q * high;
    }
  }

  lemma {:induction false} NotionalBetween(trades: seq<Trade>, low: real, high: real)
    requires PricedWithin(trades, low, high)
    ensures NotionalAt(trades, low) <= Notional(trades) <= NotionalAt(trades, high)
  {
    if trades != [] {
      var rest := trades[1..];
      NotionalBetween(rest, low, high);
      WorthBetween(trades[0].quantity, low, trades[0].price, high);
    }
  }

  lemma Distribute(a: real, b: real, x: real)
    ensures (a + b) * x == a * x + b * x
  {
  }

  lemma {:induction false} NotionalAtIsProduct(trades: seq<Trade>, price: real)
    ensures NotionalAt(trades, price) == TotalQuantity(trades) as real * price
  {
    if trades != [] {
      NotionalAtIsProduct(trades[1..], price);
      Distribute(Max(0, trades[0].quantity) as real, TotalQuantity(trades[1..]) as real, price);
    }
  }

  lemma ProductAt(trades: seq<Trade>, price: real, q: real) returns (at: real)
    requires q == TotalQuantity(trades) as real
    ensures at == NotionalAt(trades, price) == q * price
  {
    NotionalAtIsProduct(trades, price);
    at := NotionalAt(trades, price);
  }

  /** The sums behind an average, named so that the division can be done without them. */
  lemma AverageParts(trades: seq<Trade>, low: real, high: real) returns (n: real, q: real, atLow: real, atHigh: real)
    requires PricedWithin(trades, low, high)
    ensures n == Notional(trades) && q == TotalQuantity(trades) as real
    ensures atLow == q * low && atHigh == q * high && atLow <= n <= atHigh
  {
    n, q := Notional(trades), TotalQuantity(trades) as real;
    NotionalBetween(trades, low, high);
    atLow := ProductAt(trades, low, q);
    atHigh := ProductAt(trades, high, q);
  }

  lemma AverageWithin(trades: seq<Trade>, low: real, high: real)
    requires PricedWithin(trades, low, high) && TotalQuantity(trades) > 0
    ensures low <= Notional(trades) / TotalQuantity(trades) as real <= high
  {
    var n, q, atLow, atHigh := AverageParts(trades, low, high);
    QuotientWithin(n, q, low, high);
  }

  /** Recovered evidence never claims more than the order or the trades hold, and is FILLED
      exactly when the trades cover the order. */
  lemma RecoveredQuantity(id: OrderId, o: Order, trades: seq<Trade>)
    requires Matches(trades, id) != []
    ensures var r := FromTrades(id, o, trades).value; var total := TotalQuantity(Matches(trades, id));
            && r.filled == Min(total, o.quantity)
            && (r.status == "FILLED" <==> r.filled == o.quantity)
  {
    assert |"FILLED"| != |"PARTIALLY_FILLED"|;
  }

  /** Its average price lies in every range that holds the prices of the matching trades with
      positive quantity, and is zero when there is none. */
  lemma RecoveredPrice(id: OrderId, o: Order, trades: seq<Trade>, low: real, high: real)
    requires Matches(trades, id) != [] && PricedWithin(Matches(trades, id), low, high)
    ensures var average := FromTrades(id, o, trades).value.averagePrice;
            if TotalQuantity(Matches(trades, id)) > 0 then low <= average <= high else average == 0.0
  {
    if TotalQuantity(Matches(trades, id)) > 0 {
      AverageWithin(Matches(trades, id), low, high);
    }
  }

  // ---- the answer the pass acts on, read off the broker's records ----

  /** What was traded under the client reference; negative quantities count as none. */
  ghost function Traded(trades: seq<Trade>, id: OrderId): nat {
    if trades == [] then 0
    else Traded(trades[1..], id) + if trades[0].orderId == id && trades[0].quantity > 0 then trades[0].quantity else 0
  }

  ghost function TradedValue(trades: seq<Trade>, id: OrderId): real {
    if trades == [] then 0.0
    else
      var t := trades[0];
      TradedValue(trades[1..], id) + if t.orderId == id && t.quantity > 0 then t.quantity as real * t.price else 0.0
  }

  ghost predicate FirstTrade(trades: seq<Trade>, id: OrderId, i: int) {
    0 <= i < |trades| && trades[i].orderId == id && forall j :: 0 <= j < i ==> trades[j].orderId != id
  }

  /** What the trades under the client reference tell of an order of this quantity. */
  ghost predicate Recovered(trades: seq<Trade>, id: OrderId, quantity: nat, a: Response) {
    var traded := Traded(trades, id);
    && (exists i :: FirstTrade(trades, id, i) && a.brokerId == Some(trades[i].brokerId))
    && a.filled == Min(traded, quantity)
    && a.status == (if traded >= quantity then "FILLED" else "PARTIALLY_FILLED")
    && (if traded > 0 then a.averagePrice * traded as real == TradedValue(trades, id) else a.averagePrice == 0.0)
  }

  /** Where the broker answers for an order that is not FILLED: under its broker id if it has one; else, while
      its submission is in doubt, under its client reference or, failing that, through its trades. */
  ghost predicate Answers(g: Gateway, id: OrderId, o: Order, a: Response) {
    && id !in g.failing
    && match o.brokerId
       case Some(b) => b in g.byBrokerId && a == g.byBrokerId[b]
       case None =>
         && o.status in {Submitting, SubmissionUnknown}
         && if id in g.byClientId then a == g.byClientId[id] else Recovered(g.trades, id, o.quantity, a)
  }

  lemma {:induction false} MatchesSum(trades: seq<Trade>, id: OrderId)
    ensures TotalQuantity(Matches(trades, id)) == Traded(trades, id)
    ensures Notional(Matches(trades, id)) == TradedValue(trades, id)
  {
    if trades != [] {
      MatchesSum(trades[1..], id);
      if trades[0].orderId == id {
        assert Matches(trades, id)[1..] == Matches(trades[1..], id);
      } else {
        assert Matches(trades, id) == Matches(trades[1..], id);
      }
    }
  }

  lemma {:induction false} FirstMatch(trades: seq<Trade>, id: OrderId)
    ensures Matches(trades, id) != [] ==> exists i :: FirstTrade(trades, id, i)
    ensures forall i :: FirstTrade(trades, id, i) ==> Matches(trades, id) != [] && Matches(trades, id)[0] == trades[i]
  {
    if trades != [] {
      FirstMatch(trades[1..], id);
      if trades[0].orderId == id {
        assert FirstTrade(trades, id, 0);
      } else {
        forall i | FirstTrade(trades, id, i)
          ensures FirstTrade(trades[1..], id, i - 1)
        {
        }
        if j :| FirstTrade(trades[1..], id, j) {
          assert FirstTrade(trades, id, j + 1);
        }
      }
    }
  }

  lemma QuotientIs(value: real, n: real, x: real)
    requires n > 0.0
    ensures x * n == value <==> x == value / n
  {
    assert value / n * n == value;
    assert x * n == value ==> x * n / n == value / n;
    assert x * n / n == x;
  }

  /** The two sums behind the average, named so that the division can be done without them. */
  lemma RecoveredSums(trades: seq<Trade>, id: OrderId) returns (total: nat, notional: real)
    ensures total == TotalQuantity(Matches(trades, id)) == Traded(trades, id)
    ensures notional == Notional(Matches(trades, id)) == TradedValue(trades, id)
    ensures total > 0 ==> notional / total as real * total as real == notional
  {
    MatchesSum(trades, id);
    total, notional := Traded(trades, id), TradedValue(trades, id);
    if total > 0 {
      QuotientIs(notional, total as real, notional / total as real);
    }
  }

  lemma FromTradesRecovers(id: OrderId, o: Order, trades: seq<Trade>)
    ensures FromTrades(id, o, trades).Some? <==> exists i :: FirstTrade(trades, id, i)
    ensures FromTrades(id, o, trades).Some? ==> Recovered(trades, id, o.quantity, FromTrades(id, o, trades).value)
  {
    var total, notional := RecoveredSums(trades, id);
    FirstMatch(trades, id);
  }

  lemma RecoveredOnce(trades: seq<Trade>, id: OrderId, quantity: nat, a: Response, b: Response)
    requires Recovered(trades, id, quantity, a) && Recovered(trades, id, quantity, b)
    ensures a == b
  {
    if Traded(trades, id) > 0 {
      QuotientIs(TradedValue(trades, id), Traded(trades, id) as real, a.averagePrice);
      QuotientIs(TradedValue(trades, id), Traded(trades, id) as real, b.averagePrice);
    }
  }

  lemma RecoveredIsFromTrades(id: OrderId, o: Order, trades: seq<Trade>, a: Response)
    ensures Recovered(trades, id, o.quantity, a) <==> FromTrades(id, o, trades) == Some(a)
  {
    FromTradesRecovers(id, o, trades);
    if Recovered(trades, id, o.quantity, a) {
      RecoveredOnce(trades, id, o.quantity, a, FromTrades(id, o, trades).value);
    }
  }

  /** The pass acts on exactly those answers. */
  lemma EvidenceIsTheAnswer(id: OrderId, o: Order, g: Gateway, a: Response)
    ensures EvidenceFor(id, o, g) == Some(a) <==> Answers(g, id, o, a)
  {
    if id !in g.failing && o.brokerId == None && id !in g.byClientId {
      RecoveredIsFromTrades(id, o, g.trades, a);
    }
  }
}
