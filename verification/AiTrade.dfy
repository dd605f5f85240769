/** The AI paper-trade journal: one open trade, a premium trailing stop, and a daily entry cap.
    Times are seconds since an IST midnight. */
module AiTrade {
  import opened Common
  import opened Rounding

  const DAY := 86400

  function IstDay(time: int): int {
    time / DAY
  }

  /** The exit policy stored with each trade, in percent and seconds. */
  datatype Policy = Policy(initialStopPct: real, activationPct: real, gapPct: real, targetPct: real, maxHold: int)

  datatype Settings = Settings(
    enabled: bool,
    paper: bool,
    maxQuantity: int,
    maxNotional: real,
    maxDailyEntries: int,
    policy: Policy)

  datatype ExitReason = TrailingStop | InitialStop | ProfitTarget | MaxHoldTime

  datatype Status = Open | Closed(time: int, price: real, reason: ExitReason, pnl: real)

  datatype Trade = Trade(
    id: string,
    signalId: string,
    instrument: string,
    quantity: int,
    entry: real,
    entryBid: real,
    initialStop: real,
    currentStop: real,
    target: real,
    peak: real,
    lastBid: real,
    trailing: bool,
    status: Status,
    entryTime: int,
    lastChecked: Option<int>,
    dataStatus: string,
    policy: Policy)

  /** One look at the market for one trade: a usable bid, or the reason there is none. */
  datatype Look = Quoted(bid: real, now: int) | Unquoted(code: string, now: int)

  // ---- the contract quote ----

  datatype Leg = Leg(instrument: string, source: string, bid: real, ask: real, observed: Option<int>, lotSize: int)

  datatype Quote = Quote(bid: real, ask: real, lotSize: int)

  /** What `_contract_quote` accepts: a real, fresh, two-sided quote with a spread of at most 3%. */
  function CheckQuote(leg: Option<Leg>, instrument: string, now: int): Result<Quote, string> {
    if leg == None || leg.value.source != "KITE" then Err("REAL_OPTION_CHAIN_UNAVAILABLE")
    else if leg.value.instrument != instrument then Err("CONTRACT_NOT_IN_LIVE_OPTION_CHAIN")
    else if leg.value.observed == None then Err("OPTION_EXCHANGE_TIMESTAMP_MISSING")
    else if now - leg.value.observed.value < -1 || now - leg.value.observed.value > 15 then Err("OPTION_QUOTE_STALE")
    else if leg.value.bid <= 0.0 || leg.value.ask < leg.value.bid || leg.value.ask <= 0.0 then Err("OPTION_SPREAD_INVALID")
    else if (leg.value.ask - leg.value.bid) / ((leg.value.ask + leg.value.bid) / 2.0) * 100.0 > 3.0 then Err("OPTION_SPREAD_TOO_WIDE")
    else Ok(Quote(leg.value.bid, leg.value.ask, leg.value.lotSize))
  }

  // ---- the exit decision ----

  function Share(x: real, k: real): real {
    x * k
  }

  /** The price that arms the trailing stop. */
  function ActivationPrice(entry: real, pct: real): real {
    Share(entry, 1.0 + pct / 100.0)
  }

  /** Where the trailing stop would stand for a peak. */
  function TrailPrice(peak: real, gapPct: real): real {
    ToPaise(Share(peak, 1.0 - gapPct / 100.0))
  }

  /** Where the stop stands: the initial one, or once trailing the highest of it, entry and trail. */
  function StopFor(initial: real, entry: real, trail: real, trailing: bool): real {
    if trailing then MaxReal(initial, MaxReal(entry, trail)) else initial
  }

  function Pnl(t: Trade, bid: real): real {
    ToPaise(Share(bid - t.entry, t.quantity as real))
  }

  function Transition(t: Trade, bid: real, now: int): Trade {
    if t.status != Open then t
    else
      var peak := MaxReal(t.peak, bid);
      var trailing := t.trailing || peak >= ActivationPrice(t.entry, t.policy.activationPct);
      var stop := if trailing then MaxReal(t.currentStop, MaxReal(t.entry, TrailPrice(peak, t.policy.gapPct))) else t.currentStop;
      var seen := t.(peak := peak, lastBid := bid, currentStop := stop, trailing := trailing,
                     lastChecked := Some(now), dataStatus := "VALID");
      if bid <= stop then seen.(status := Closed(now, bid, if trailing then TrailingStop else InitialStop, Pnl(t, bid)))
      else if bid >= t.target then seen.(status := Closed(now, bid, ProfitTarget, Pnl(t, bid)))
      else if now - t.entryTime >= t.policy.maxHold then seen.(status := Closed(now, bid, MaxHoldTime, Pnl(t, bid)))
      else seen
  }

  /** One poll of one row: only OPEN rows are touched, and a failed quote changes no price or status. */
  function Polled(t: Trade, look: Look): Trade {
    if t.status != Open then t
    else match look
      case Quoted(bid, now) => Transition(t, bid, now)
      case Unquoted(code, now) => t.(dataStatus := code, lastChecked := Some(now))
  }

  function PolledAll(t: Trade, looks: seq<Look>): Trade {
    if looks == [] then t else Polled(PolledAll(t, looks[..|looks| - 1]), looks[|looks| - 1])
  }

  /** The row `submit` inserts. */
  function Entered(id: string, signalId: string, instrument: string, quantity: int, q: Quote, now: int, p: Policy): Trade {
    var stop := ToPaise(Share(q.ask, 1.0 - p.initialStopPct / 100.0));
    Trade(id, signalId, instrument, quantity, q.ask, q.bid, stop, stop,
          ToPaise(Share(q.ask, 1.0 + p.targetPct / 100.0)), q.bid, q.bid, false, Open, now, None, "VALID", p)
  }

  /** The settings' ranges. */
  ghost predicate ProperPolicy(p: Policy) {
    0.0 < p.activationPct && 0.0 < p.gapPct <= 20.0
  }

  /** The highest bid among the entry bid and the quoted ones. */
  function MaxBid(entryBid: real, looks: seq<Look>): real {
    if looks == [] then entryBid
    else
      var before, look := MaxBid(entryBid, looks[..|looks| - 1]), looks[|looks| - 1];
      if look.Quoted? then MaxReal(before, look.bid) else before
  }

  /** Trailing flag and stop as functions of the peak alone. */
  ghost predicate Shaped(t: Trade) {
    && ProperPolicy(t.policy) && 0.0 < t.entryBid <= t.entry && t.entryBid <= t.peak
    && (t.trailing <==> t.peak >= ActivationPrice(t.entry, t.policy.activationPct))
    && t.currentStop == StopFor(t.initialStop, t.entry, TrailPrice(t.peak, t.policy.gapPct), t.trailing)
  }

  ghost predicate SameEntry(t: Trade, u: Trade) {
    && t.id == u.id && t.signalId == u.signalId && t.instrument == u.instrument && t.quantity == u.quantity
    && t.entry == u.entry && t.entryBid == u.entryBid && t.initialStop == u.initialStop && t.target == u.target
    && t.entryTime == u.entryTime && t.policy == u.policy
  }

  /** A failed quote closes nothing and moves no price. */
  lemma FailedQuoteMovesNothing(t: Trade, code: string, now: int)
    ensures var u := Polled(t, Unquoted(code, now));
            u.(dataStatus := t.dataStatus, lastChecked := t.lastChecked) == t && (t.status == Open ==> u.dataStatus == code)
  {
  }

  lemma ActivationAboveEntry(entry: real, pct: real)
    requires entry > 0.0 && pct > 0.0
    ensures entry < ActivationPrice(entry, pct)
  {
    assert entry * (1.0 + pct / 100.0) == entry + entry * (pct / 100.0);
    assert entry * (pct / 100.0) > 0.0;
  }

  lemma EnteredIsShaped(id: string, signalId: string, instrument: string, quantity: int, q: Quote, now: int, p: Policy)
    requires 0.0 < q.bid <= q.ask && ProperPolicy(p)
    ensures Shaped(Entered(id, signalId, instrument, quantity, q, now, p))
  {
    ActivationAboveEntry(q.ask, p.activationPct);
  }

  lemma ShareGrows(x: real, y: real, k: real)
    requires x <= y && k >= 0.0
    ensures Share(x, k) <= Share(y, k)
  {
  }

  lemma TrailGrows(peak: real, peak': real, gapPct: real)
    requires gapPct <= 20.0 && peak <= peak'
    ensures TrailPrice(peak, gapPct) <= TrailPrice(peak', gapPct)
  {
    ShareGrows(peak, peak', 1.0 - gapPct / 100.0);
    PaiseRounding(Share(peak, 1.0 - gapPct / 100.0), Share(peak', 1.0 - gapPct / 100.0), 0);
  }

  /** A running maximum of stops that grow with the peak is the stop of the running peak. */
  lemma StopFollowsPeak(t: Trade, bid: real, activation: real, trail: real, trail': real)
    requires t.trailing <==> t.peak >= activation
    requires t.currentStop == StopFor(t.initialStop, t.entry, trail, t.trailing) && trail <= trail'
    ensures var peak := MaxReal(t.peak, bid); var trailing := t.trailing || peak >= activation;
            && (trailing <==> peak >= activation)
            && (if trailing then MaxReal(t.currentStop, MaxReal(t.entry, trail')) else t.currentStop)
               == StopFor(t.initialStop, t.entry, trail', trailing)
  {
  }

  lemma TransitionFields(t: Trade, bid: real, now: int)
    requires t.status == Open
    ensures var u := Transition(t, bid, now); var peak := MaxReal(t.peak, bid); var trailing := t.trailing || peak >= ActivationPrice(t.entry, t.policy.activationPct);
            && SameEntry(t, u) && u.peak == peak && u.lastBid == bid && u.trailing == trailing
            && u.currentStop == if trailing then MaxReal(t.currentStop, MaxReal(t.entry, TrailPrice(peak, t.policy.gapPct))) else t.currentStop
  {
  }

  /** The bid moves the peak, and the new row is again shaped by it. */
  lemma TransitionKeepsShape(t: Trade, bid: real, now: int)
    requires Shaped(t) && t.status == Open
    ensures var u := Transition(t, bid, now);
            Shaped(u) && SameEntry(t, u) && u.peak == MaxReal(t.peak, bid) && u.lastBid == bid
  {
    var peak := MaxReal(t.peak, bid);
    TrailGrows(t.peak, peak, t.policy.gapPct);
    StopFollowsPeak(t, bid, ActivationPrice(t.entry, t.policy.activationPct), TrailPrice(t.peak, t.policy.gapPct), TrailPrice(peak, t.policy.gapPct));
    TransitionFields(t, bid, now);
  }

  /** CLOSED is absorbing. */
  lemma {:induction false} ClosedStaysClosed(t: Trade, looks: seq<Look>)
    requires t.status != Open
    ensures PolledAll(t, looks) == t
  {
    if looks != [] {
      ClosedStaysClosed(t, looks[..|looks| - 1]);
    }
  }

  /** The poll at which a closed row closed: the row has not changed since. */
  ghost predicate ClosedAt(t: Trade, looks: seq<Look>, k: nat) {
    && 0 < k <= |looks| && PolledAll(t, looks) == PolledAll(t, looks[..k])
    && PolledAll(t, looks[..k - 1]).status == Open
    && PolledAll(t, looks).peak == MaxBid(t.entryBid, looks[..k])
  }

  lemma ClosedAtLonger(t: Trade, looks: seq<Look>, k: nat)
    requires looks != [] && ClosedAt(t, looks[..|looks| - 1], k) && PolledAll(t, looks[..|looks| - 1]).status != Open
    ensures ClosedAt(t, looks, k)
  {
    var n := |looks| - 1;
    assert looks[..n][..k] == looks[..k] && looks[..n][..k - 1] == looks[..k - 1];
  }

  /** After any polls the row is shaped by its peak; while it is open the peak is the highest bid
      seen, and closing freezes it. */
  lemma {:induction false} PollsDependOnMaxBid(t: Trade, looks: seq<Look>)
    requires Shaped(t) && t.status == Open && t.peak == t.entryBid
    ensures var u := PolledAll(t, looks);
            && Shaped(u) && SameEntry(t, u)
            && (u.status == Open ==> u.peak == MaxBid(t.entryBid, looks))
            && (u.status != Open ==> exists k :: ClosedAt(t, looks, k))
  {
    if looks != [] {
      var n := |looks| - 1;
      var before, look := PolledAll(t, looks[..n]), looks[n];
      PollsDependOnMaxBid(t, looks[..n]);
      if before.status != Open {
        var k :| ClosedAt(t, looks[..n], k);
        ClosedAtLonger(t, looks, k);
      } else if look.Quoted? {
        TransitionKeepsShape(before, look.bid, look.now);
        assert looks[..|looks|] == looks;
        assert PolledAll(t, looks).status != Open ==> ClosedAt(t, looks, |looks|);
      }
    }
  }

  /** A row still open after a usable quote lies strictly between its stop and its target. */
  lemma OpenMeansInside(t: Trade, bid: real, now: int)
    requires t.status == Open
    ensures var u := Polled(t, Quoted(bid, now));
            && (u.status == Open <==> u.currentStop < bid < u.target && now - u.entryTime < u.policy.maxHold)
            && (u.status != Open ==> u.status.price == bid && u.status.time == now)
  {
  }

  // ---- the prices of a row, from its policy ----

  /** `r` is `x` moved by `pct` percent, in paise. */
  ghost predicate Moved(r: real, x: real, pct: real) {
    InPaise(r, x * (1.0 + pct / 100.0))
  }

  /** The stop of a trade that trails is the highest of the initial one, the entry and the price `gapPct` percent
      under its peak; of one that does not, the initial one. */
  ghost predicate StopStands(t: Trade) {
    if !t.trailing then t.currentStop == t.initialStop
    else exists trail :: Moved(trail, t.peak, -t.policy.gapPct) && t.currentStop == MaxReal(t.initialStop, MaxReal(t.entry, trail))
  }

  /** `pnl` is the profit of selling at `price`, in paise. */
  ghost predicate Profits(pnl: real, entry: real, price: real, quantity: int) {
    InPaise(pnl, (price - entry) * quantity as real)
  }

  /** A closed row closed at its last bid, for the first of the four reasons that applied, with the profit of that
      price in paise. */
  ghost predicate ClosedRightly(t: Trade) {
    match t.status
    case Open => true
    case Closed(time, price, reason, pnl) =>
      && price == t.lastBid && Profits(pnl, t.entry, price, t.quantity)
      && (reason == TrailingStop <==> price <= t.currentStop && t.trailing)
      && (reason == InitialStop <==> price <= t.currentStop && !t.trailing)
      && (reason == ProfitTarget <==> t.currentStop < price && t.target <= price)
      && (reason == MaxHoldTime ==> t.currentStop < price < t.target && time - t.entryTime >= t.policy.maxHold)
  }

  /** Every price of the row follows from its entry, its peak and its policy. */
  ghost predicate Priced(t: Trade) {
    && Moved(t.initialStop, t.entry, -t.policy.initialStopPct) && Moved(t.target, t.entry, t.policy.targetPct)
    && StopStands(t) && ClosedRightly(t)
  }

  lemma PaiseOfShare(x: real, k: real)
    ensures InPaise(ToPaise(Share(x, k)), x * k)
  {
    RoundsToPaise(x * k);
  }

  lemma MovedByPolicy(x: real, pct: real)
    ensures Moved(ToPaise(Share(x, 1.0 + pct / 100.0)), x, pct)
    ensures Moved(ToPaise(Share(x, 1.0 - pct / 100.0)), x, -pct)
  {
    PaiseOfShare(x, 1.0 + pct / 100.0);
    PaiseOfShare(x, 1.0 - pct / 100.0);
    assert 1.0 + -pct / 100.0 == 1.0 - pct / 100.0;
  }

  lemma ShapedStop(t: Trade)
    requires Shaped(t)
    ensures StopStands(t)
  {
    MovedByPolicy(t.peak, t.policy.gapPct);
  }

  /** The trailing stop is armed at the activation percentage above the entry. */
  lemma ArmedAt(entry: real, pct: real)
    ensures ActivationPrice(entry, pct) * 100.0 == entry * (100.0 + pct)
  {
  }

  lemma EnteredIsPriced(id: string, signalId: string, instrument: string, quantity: int, q: Quote, now: int, p: Policy)
    requires 0.0 < q.bid <= q.ask && ProperPolicy(p)
    ensures Priced(Entered(id, signalId, instrument, quantity, q, now, p))
  {
    MovedByPolicy(q.ask, p.initialStopPct);
    MovedByPolicy(q.ask, p.targetPct);
    EnteredIsShaped(id, signalId, instrument, quantity, q, now, p);
    ShapedStop(Entered(id, signalId, instrument, quantity, q, now, p));
  }

  lemma PnlProfits(t: Trade, bid: real)
    ensures Profits(Pnl(t, bid), t.entry, bid, t.quantity)
  {
    PaiseOfShare(bid - t.entry, t.quantity as real);
  }

  lemma TransitionClosesRightly(t: Trade, bid: real, now: int)
    requires t.status == Open
    ensures ClosedRightly(Transition(t, bid, now))
  {
    PnlProfits(t, bid);
  }

  lemma PolledStaysPriced(t: Trade, look: Look)
    requires Shaped(t) && Priced(t)
    ensures Shaped(Polled(t, look)) && Priced(Polled(t, look))
  {
    if t.status == Open && look.Quoted? {
      TransitionKeepsShape(t, look.bid, look.now);
      ShapedStop(Transition(t, look.bid, look.now));
      TransitionClosesRightly(t, look.bid, look.now);
    }
  }

  lemma SpreadIs(spread: real, mid: real)
    requires mid > 0.0
    ensures spread / mid * 100.0 > 3.0 <==> spread * 100.0 > 3.0 * mid
  {
    var x := spread / mid;
    assert x * mid == spread;
    if x * 100.0 > 3.0 {
      assert (x * 100.0 - 3.0) * mid > 0.0;
    } else {
      assert (3.0 - x * 100.0) * mid >= 0.0;
    }
  }

  /** A quote is usable exactly when it is Kite's, of the contract, between one second ahead and fifteen seconds old,
      two-sided, and its spread is at most three percent of the mid price. */
  lemma UsableExactly(leg: Option<Leg>, instrument: string, now: int)
    ensures CheckQuote(leg, instrument, now).Ok? <==>
              && leg.Some? && leg.value.source == "KITE" && leg.value.instrument == instrument
              && leg.value.observed.Some? && -1 <= now - leg.value.observed.value <= 15
              && 0.0 < leg.value.bid <= leg.value.ask
              && (leg.value.ask - leg.value.bid) * 200.0 <= 3.0 * (leg.value.ask + leg.value.bid)
    ensures CheckQuote(leg, instrument, now).Ok? ==>
              CheckQuote(leg, instrument, now).value == Quote(leg.value.bid, leg.value.ask, leg.value.lotSize)
  {
    if leg.Some? && 0.0 < leg.value.bid <= leg.value.ask {
      SpreadIs(leg.value.ask - leg.value.bid, (leg.value.ask + leg.value.bid) / 2.0);
    }
  }
}
