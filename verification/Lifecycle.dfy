/** The protective-exit lifecycle of one Strategy C trade, replayed up to an as-of time.

    The specification works in R units (multiples of the entry risk, favourable direction up), so
    it has no direction and no division; the method works in prices with the source's two-sided
    branches and is proved to compute it. Times are seconds since an IST midnight. */
module Lifecycle {
  import opened Common

  const DAY := 86400
  const FORCED_EXIT := 15 * 3600 + 15 * 60

  datatype Direction = Call | Put

  datatype Bar = Bar(start: int, end: int, open: real, high: real, low: real, close: real)

  datatype Config = Config(
    hardTargetR: real,
    breakevenArmR: real,
    trailArmR: real,
    trailOffsetR: real,
    maxTradesPerDay: int)

  datatype Trigger = Trigger(
    direction: Direction,
    entryEnd: int,
    entry: real,
    stop: real,
    delayMinutes: Option<real>,
    riskAtr: Option<real>,
    separationAtr: Option<real>)

  datatype ExitReason = StopOrTrail | HardTarget | ForcedExit

  /** `Open` rows have no exit; a `Resolved` row's current R is its realized R. */
  datatype Lifecycle =
    | Open(currentStop: real, currentR: real, mfeR: real, maeR: real)
    | Resolved(exitTime: int, exitPrice: real, reason: ExitReason, realizedR: real,
               currentStop: real, mfeR: real, maeR: real)
  {
    function R(): real {
      if Open? then currentR else realizedR
    }
  }

  datatype LifecycleError = RiskNotPositive

  function Risk(t: Trigger): real {
    Abs(t.entry - t.stop)
  }

  function Cutoff(t: Trigger): int {
    t.entryEnd / DAY * DAY + FORCED_EXIT
  }

  function Horizon(t: Trigger, asOf: int): int {
    Min(asOf, Cutoff(t))
  }

  /** The bars after entry that completed within the horizon. */
  function Post(bars: seq<Bar>, from: int, horizon: int): seq<Bar> {
    if bars == [] then []
    else
      var last := bars[|bars| - 1];
      Post(bars[..|bars| - 1], from, horizon) + (if last.start >= from && last.end <= horizon then [last] else [])
  }

  // ---- the specification, in R units ----

  datatype RBar = RBar(end: int, best: real, worst: real, close: real)

  datatype Track = Track(stop: real, best: real, mfe: real, mae: real, last: real)

  datatype Progress =
    | Running(track: Track)
    | Exited(time: int, r: real, reason: ExitReason, track: Track)

  function InR(t: Trigger, price: real): real
    requires Risk(t) > 0.0
  {
    (if t.direction == Call then price - t.entry else t.entry - price) / Risk(t)
  }

  function PriceAt(t: Trigger, r: real): real {
    if t.direction == Call then t.entry + r * Risk(t) else t.entry - r * Risk(t)
  }

  function BarInR(t: Trigger, b: Bar): RBar
    requires Risk(t) > 0.0
  {
    RBar(b.end,
         InR(t, if t.direction == Call then b.high else b.low),
         InR(t, if t.direction == Call then b.low else b.high),
         InR(t, b.close))
  }

  function BarsInR(t: Trigger, bars: seq<Bar>): (rs: seq<RBar>)
    requires Risk(t) > 0.0
    ensures |rs| == |bars|
    ensures forall i :: 0 <= i < |bars| ==> rs[i] == BarInR(t, bars[i])
  {
    seq(|bars|, i requires 0 <= i < |bars| => BarInR(t, bars[i]))
  }

  /** Where the stop moves once the best excursion is `best`. */
  function Tightened(stop: real, best: real, c: Config): real {
    var armed := if best >= c.breakevenArmR then MaxReal(stop, 0.0) else stop;
    if best >= c.trailArmR then MaxReal(armed, best - c.trailOffsetR) else armed
  }

  /** One bar: the stop is tested before the target, and both before the stop moves. */
  function OnBar(p: Track, b: RBar, c: Config): Progress {
    var seen := p.(mfe := MaxReal(p.mfe, b.best), mae := MaxReal(p.mae, -b.worst), last := b.close);
    if b.worst <= p.stop then Exited(b.end, p.stop, StopOrTrail, seen)
    else if b.best >= c.hardTargetR then Exited(b.end, c.hardTargetR, HardTarget, seen)
    else
      var best := MaxReal(p.best, b.best);
      Running(seen.(best := best, stop := Tightened(p.stop, best, c)))
  }

  function Advance(p: Progress, b: RBar, c: Config): Progress {
    if p.Exited? then p else OnBar(p.track, b, c)
  }

  function Scan(p: Progress, bars: seq<RBar>, c: Config): Progress {
    if bars == [] then p else Advance(Scan(p, bars[..|bars| - 1], c), bars[|bars| - 1], c)
  }

  function Entered(t: Trigger): Progress
    requires Risk(t) > 0.0
  {
    Running(Track(InR(t, t.stop), 0.0, 0.0, 0.0, 0.0))
  }

  function Decoded(t: Trigger, post: seq<Bar>, p: Progress, pastCutoff: bool): Lifecycle {
    var k := p.track;
    match p
    case Exited(time, r, reason, _) => Resolved(time, PriceAt(t, r), reason, r, PriceAt(t, k.stop), k.mfe, k.mae)
    case Running(_) =>
      if pastCutoff
      then Resolved(if post == [] then t.entryEnd else post[|post| - 1].end,
                    PriceAt(t, k.last), ForcedExit, k.last, PriceAt(t, k.stop), k.mfe, k.mae)
      else Open(PriceAt(t, k.stop), k.last, k.mfe, k.mae)
  }

  /** The lifecycle the method computes. */
  function LifecycleAt(t: Trigger, bars: seq<Bar>, c: Config, asOf: int): Result<Lifecycle, LifecycleError> {
    if Risk(t) <= 0.0 then Err(RiskNotPositive)
    else
      var post := Post(bars, t.entryEnd, Horizon(t, asOf));
      Ok(Decoded(t, post, Scan(Entered(t), BarsInR(t, post), c), asOf >= Cutoff(t)))
  }

  // ---- prices and R units ----

  lemma Scale(y: real, k: real, r: real)
    requires k > 0.0
    ensures y <= r * k <==> y / k <= r
    ensures y >= r * k <==> y / k >= r
    ensures y / k * k == y && r * k / k == r
  {
    var x := y / k;
    assert x * k == y;
    if x <= r { assert x * k <= r * k; }
    if x >= r { assert x * k >= r * k; }
    assert r * k / k == r;
  }

  /** Converting a price and comparing in R units is comparing prices. */
  lemma PriceVersusR(t: Trigger, price: real, r: real)
    requires Risk(t) > 0.0
    ensures PriceAt(t, InR(t, price)) == price && InR(t, PriceAt(t, r)) == r
    ensures t.direction == Call ==> (price <= PriceAt(t, r) <==> InR(t, price) <= r) && (price >= PriceAt(t, r) <==> InR(t, price) >= r)
    ensures t.direction == Put ==> (price >= PriceAt(t, r) <==> InR(t, price) <= r) && (price <= PriceAt(t, r) <==> InR(t, price) >= r)
  {
    Scale(if t.direction == Call then price - t.entry else t.entry - price, Risk(t), r);
  }

  lemma Shift(t: Trigger, r: real, offset: real)
    ensures t.direction == Call ==> PriceAt(t, r - offset) == PriceAt(t, r) - offset * Risk(t)
    ensures t.direction == Put ==> PriceAt(t, r - offset) == PriceAt(t, r) + offset * Risk(t)
  {
  }

  lemma PriceOrder(t: Trigger, r: real, s: real)
    requires Risk(t) > 0.0
    ensures t.direction == Call ==> (PriceAt(t, r) <= PriceAt(t, s) <==> r <= s)
    ensures t.direction == Put ==> (PriceAt(t, r) >= PriceAt(t, s) <==> r <= s)
  {
    PriceVersusR(t, PriceAt(t, r), s);
  }

  lemma EntryIsZero(t: Trigger)
    requires Risk(t) > 0.0
    ensures PriceAt(t, 0.0) == t.entry && InR(t, t.entry) == 0.0
  {
    PriceVersusR(t, t.entry, 0.0);
  }

  // ---- the loop, in prices ----

  /** The price-side variables of the loop and the R-side track they stand for. */
  ghost predicate Tracks(t: Trigger, k: Track, stop: real, best: real, latest: real) {
    stop == PriceAt(t, k.stop) && best == PriceAt(t, k.best) && latest == PriceAt(t, k.last)
  }

  /** The tests of one bar agree with the tests in R units. */
  lemma TestsAgree(t: Trigger, k: Track, b: Bar, c: Config)
    requires Risk(t) > 0.0
    ensures var r := BarInR(t, b);
            && (t.direction == Call ==>
                  && (b.low <= PriceAt(t, k.stop) <==> r.worst <= k.stop)
                  && (b.high >= PriceAt(t, c.hardTargetR) <==> r.best >= c.hardTargetR)
                  && MaxReal(PriceAt(t, k.best), b.high) == PriceAt(t, MaxReal(k.best, r.best)))
            && (t.direction == Put ==>
                  && (b.high >= PriceAt(t, k.stop) <==> r.worst <= k.stop)
                  && (b.low <= PriceAt(t, c.hardTargetR) <==> r.best >= c.hardTargetR)
                  && MinReal(PriceAt(t, k.best), b.low) == PriceAt(t, MaxReal(k.best, r.best)))
            && PriceAt(t, r.close) == b.close
  {
    var (best, worst) := if t.direction == Call then (b.high, b.low) else (b.low, b.high);
    PriceVersusR(t, worst, k.stop);
    PriceVersusR(t, best, c.hardTargetR);
    PriceVersusR(t, best, k.best);
    PriceVersusR(t, b.close, 0.0);
  }

  lemma QuotientOf(y: real, k: real, q: real)
    requires k > 0.0 && q * k == y
    ensures y / k == q
  {
    Scale(y, k, q);
  }

  lemma AdverseIsOpposite(t: Trigger, b: Bar)
    requires Risk(t) > 0.0
    ensures t.direction == Call ==> (t.entry - b.low) / Risk(t) == -BarInR(t, b).worst
    ensures t.direction == Put ==> (b.high - t.entry) / Risk(t) == -BarInR(t, b).worst
  {
    var x := if t.direction == Call then b.low - t.entry else t.entry - b.high;
    Scale(x, Risk(t), 0.0);
    Scale(-x, Risk(t), 0.0);
    QuotientOf(-x, Risk(t), -(x / Risk(t)));
  }

  /** Moving the stop in prices is moving it in R units. */
  lemma TrailAgrees(t: Trigger, stop: real, best: real, c: Config)
    requires Risk(t) > 0.0
    ensures t.direction == Call ==>
              var armed := if best >= c.breakevenArmR then MaxReal(PriceAt(t, stop), t.entry) else PriceAt(t, stop);
              (if best >= c.trailArmR then MaxReal(armed, PriceAt(t, best) - c.trailOffsetR * Risk(t)) else armed)
              == PriceAt(t, Tightened(stop, best, c))
    ensures t.direction == Put ==>
              var armed := if best >= c.breakevenArmR then MinReal(PriceAt(t, stop), t.entry) else PriceAt(t, stop);
              (if best >= c.trailArmR then MinReal(armed, PriceAt(t, best) + c.trailOffsetR * Risk(t)) else armed)
              == PriceAt(t, Tightened(stop, best, c))
  {
    EntryIsZero(t);
    PriceOrder(t, stop, 0.0);
    Shift(t, best, c.trailOffsetR);
    var armed := if best >= c.breakevenArmR then MaxReal(stop, 0.0) else stop;
    PriceOrder(t, armed, best - c.trailOffsetR);
  }

  lemma ScanStep(p: Progress, bars: seq<RBar>, i: nat, c: Config)
    requires i < |bars|
    ensures Scan(p, bars[..i + 1], c) == Advance(Scan(p, bars[..i], c), bars[i], c)
  {
    assert bars[..i + 1][..i] == bars[..i];
  }

  /** Once a prefix has exited, the rest changes nothing. */
  lemma {:induction false} ExitIsFinal(p: Progress, bars: seq<RBar>, more: seq<RBar>, c: Config)
    requires Scan(p, bars, c).Exited?
    ensures Scan(p, bars + more, c) == Scan(p, bars, c)
  {
    if more == [] {
      assert bars + more == bars;
    } else {
      var n := |more| - 1;
      ExitIsFinal(p, bars, more[..n], c);
      assert (bars + more)[..|bars| + n] == bars + more[..n];
    }
  }

  lemma ExitAt(p: Progress, bars: seq<RBar>, i: nat, c: Config)
    requires i <= |bars| && Scan(p, bars[..i], c).Exited?
    ensures Scan(p, bars, c) == Scan(p, bars[..i], c)
  {
    ExitIsFinal(p, bars[..i], bars[i..], c);
    assert bars[..i] + bars[i..] == bars;
  }

  /** The two-sided tests of one bar. */
  method TestBar(t: Trigger, bar: Bar, activeStop: real, target: real, c: Config, ghost k: Track)
      returns (favorable: real, adverse: real, stopHit: bool, targetHit: bool)
    requires Risk(t) > 0.0 && activeStop == PriceAt(t, k.stop) && target == PriceAt(t, c.hardTargetR)
    ensures var r := BarInR(t, bar);
            && favorable == r.best && adverse == -r.worst
            && (stopHit <==> r.worst <= k.stop) && (targetHit <==> r.best >= c.hardTargetR)
  {
    var entry, risk := t.entry, Risk(t);
    TestsAgree(t, k, bar, c);
    AdverseIsOpposite(t, bar);
    if t.direction == Call {
      favorable := (bar.high - entry) / risk;
      adverse := (entry - bar.low) / risk;
      stopHit := bar.low <= activeStop;
      targetHit := bar.high >= target;
    } else {
      favorable := (entry - bar.low) / risk;
      adverse := (bar.high - entry) / risk;
      stopHit := bar.high >= activeStop;
      targetHit := bar.low <= target;
    }
  }

  method BetterPrice(t: Trigger, bar: Bar, bestPrice: real, ghost k: Track, c: Config) returns (best: real)
    requires Risk(t) > 0.0 && bestPrice == PriceAt(t, k.best)
    ensures best == PriceAt(t, MaxReal(k.best, BarInR(t, bar).best))
  {
    TestsAgree(t, k, bar, c);
    best := if t.direction == Call then MaxReal(bestPrice, bar.high) else MinReal(bestPrice, bar.low);
  }

  /** The two-sided move of the stop, given the best price so far. */
  method TightenStop(t: Trigger, activeStop: real, bestPrice: real, c: Config, ghost stop: real, ghost best: real)
      returns (nextStop: real)
    requires Risk(t) > 0.0 && activeStop == PriceAt(t, stop) && bestPrice == PriceAt(t, best)
    ensures nextStop == PriceAt(t, Tightened(stop, best, c))
  {
    TrailAgrees(t, stop, best, c);
    PriceVersusR(t, bestPrice, best);
    var bestR := InR(t, bestPrice);
    nextStop := activeStop;
    if t.direction == Call {
      if bestR >= c.breakevenArmR {
        nextStop := MaxReal(nextStop, t.entry);
      }
      if bestR >= c.trailArmR {
        nextStop := MaxReal(nextStop, bestPrice - c.trailOffsetR * Risk(t));
      }
    } else {
      if bestR >= c.breakevenArmR {
        nextStop := MinReal(nextStop, t.entry);
      }
      if bestR >= c.trailArmR {
        nextStop := MinReal(nextStop, bestPrice + c.trailOffsetR * Risk(t));
      }
    }
  }

  method RunLifecycle(t: Trigger, oneMinute: seq<Bar>, c: Config, asOf: int)
      returns (result: Result<Lifecycle, LifecycleError>)
    ensures result == LifecycleAt(t, oneMinute, c, asOf)
  {
    if Risk(t) <= 0.0 {
      return Err(RiskNotPositive);
    }
    var post := Post(oneMinute, t.entryEnd, Horizon(t, asOf));
    ghost var bars := BarsInR(t, post);
    ghost var k := Entered(t).track;
    var activeStop := t.stop;
    var target := PriceAt(t, c.hardTargetR);
    var mfe, mae := 0.0, 0.0;
    var bestPrice, latestPrice := t.entry, t.entry;
    PriceVersusR(t, t.stop, 0.0);
    EntryIsZero(t);

    for i := 0 to |post|
      invariant Scan(Entered(t), bars[..i], c) == Running(k)
      invariant Tracks(t, k, activeStop, bestPrice, latestPrice) && mfe == k.mfe && mae == k.mae
      invariant latestPrice == if i > 0 then post[i - 1].close else t.entry
    {
      var bar := post[i];
      latestPrice := bar.close;
      ScanStep(Entered(t), bars, i, c);
      PriceVersusR(t, bar.close, 0.0);
      var favorable, adverse, stopHit, targetHit := TestBar(t, bar, activeStop, target, c, k);
      mfe := MaxReal(mfe, favorable);
      mae := MaxReal(mae, adverse);
      if stopHit {
        ExitAt(Entered(t), bars, i + 1, c);
        PriceVersusR(t, activeStop, k.stop);
        return Ok(Resolved(bar.end, activeStop, StopOrTrail, InR(t, activeStop), activeStop, mfe, mae));
      }
      if targetHit {
        ExitAt(Entered(t), bars, i + 1, c);
        return Ok(Resolved(bar.end, target, HardTarget, c.hardTargetR, activeStop, mfe, mae));
      }
      bestPrice := BetterPrice(t, bar, bestPrice, k, c);
      activeStop := TightenStop(t, activeStop, bestPrice, c, k.stop, MaxReal(k.best, bars[i].best));
      k := OnBar(k, bars[i], c).track;
    }
    assert bars[..|post|] == bars;
    PriceVersusR(t, latestPrice, k.last);
    if asOf >= Cutoff(t) {
      var exitPrice, exitTime := t.entry, t.entryEnd;
      if post != [] {
        exitPrice, exitTime := post[|post| - 1].close, post[|post| - 1].end;
      }
      return Ok(Resolved(exitTime, exitPrice, ForcedExit, InR(t, exitPrice), activeStop, mfe, mae));
    }
    return Ok(Open(activeStop, InR(t, latestPrice), mfe, mae));
  }
}
