/** The session VWAP of the nearest NIFTY future, and the completed-candle clock it relies on. */
module SessionVwap {
  import opened Common
  import opened Rounding
  import opened Smoothing
  import opened StableSort
  import Indicators

  /** Times are microseconds since midnight IST; the session runs from 09:15 to 15:30. */
  const SECOND: int := 1_000_000
  const MINUTE: int := 60_000_000
  const SESSION_OPEN: int := 33_300_000_000
  const SESSION_CLOSE: int := 55_800_000_000
  const FIVE_MINUTES: int := 300_000_000

  // ---- the last completed candle ----

  datatype Interval = OneMinute | FiveMinutes | FifteenMinutes

  datatype Instant = Instant(day: int, at: int)

  function StepOf(interval: Interval): int {
    match interval
    case FifteenMinutes => 15
    case FiveMinutes => 5
    case OneMinute => 1
  }

  /** Monday is 0; `day` counts from a Monday. */
  function Weekday(day: int): int {
    day % 7
  }

  /** The latest grid point of the session no later than `at`. */
  function Floored(interval: Interval, at: int): int
    requires SESSION_OPEN <= at
  {
    var elapsed := (at - SESSION_OPEN) / MINUTE;
    match interval
    case FifteenMinutes => SESSION_OPEN + elapsed / 15 * 15 * MINUTE
    case FiveMinutes => SESSION_OPEN + elapsed / 5 * 5 * MINUTE
    case OneMinute => SESSION_OPEN + elapsed * MINUTE
  }

  /** During the session. */
  function CompletedEnd(interval: Interval, at: int): Option<int>
    requires SESSION_OPEN <= at < SESSION_CLOSE
  {
    var boundary := Floored(interval, at);
    var settled := if at - boundary <= 120 * SECOND then boundary - StepOf(interval) * MINUTE else boundary;
    if settled >= SESSION_OPEN then Some(settled) else None
  }

  ghost predicate Session(day: int) {
    Weekday(day) < 5
  }

  method ExpectedCompletedEnd(interval: Interval, day: int, at: int) returns (end: Option<Instant>)
    ensures !Session(day) || at < SESSION_OPEN ==>
              && end.Some? && end.value.at == SESSION_CLOSE && end.value.day < day && Session(end.value.day)
              && forall d :: end.value.day < d < day ==> !Session(d)
    ensures Session(day) && at >= SESSION_CLOSE ==> end == Some(Instant(day, SESSION_CLOSE))
    ensures Session(day) && SESSION_OPEN <= at < SESSION_CLOSE ==>
              end == if CompletedEnd(interval, at).None? then None else Some(Instant(day, CompletedEnd(interval, at).value))
  {
    if Weekday(day) >= 5 || at < SESSION_OPEN {
      var previous := day - 1;
      while Weekday(previous) >= 5
        invariant previous < day && forall d :: previous < d < day ==> !Session(d)
        decreases Weekday(previous)
      {
        previous := previous - 1;
      }
      return Some(Instant(previous, SESSION_CLOSE));
    }
    if at >= SESSION_CLOSE {
      return Some(Instant(day, SESSION_CLOSE));
    }
    var boundary := Floored(interval, at);
    if at - boundary <= 120 * SECOND {
      boundary := boundary - StepOf(interval) * MINUTE;
    }
    return if boundary >= SESSION_OPEN then Some(Instant(day, boundary)) else None;
  }

  ghost predicate OnGrid(interval: Interval, end: int) {
    match interval
    case FifteenMinutes => (end - SESSION_OPEN) % (15 * MINUTE) == 0
    case FiveMinutes => (end - SESSION_OPEN) % (5 * MINUTE) == 0
    case OneMinute => (end - SESSION_OPEN) % MINUTE == 0
  }

  lemma MultipleOf(q: int, d: int)
    requires d > 0
    ensures q * d % d == 0
  {
    var p := q * d / d;
    ScaledOrder(p + 1, q, d);
    ScaledOrder(q + 1, p, d);
    assert q * d == p * d + q * d % d;
  }

  lemma FlooredIsGridPoint(interval: Interval, at: int)
    requires SESSION_OPEN <= at
    ensures OnGrid(interval, Floored(interval, at))
    ensures Floored(interval, at) <= at < Floored(interval, at) + StepOf(interval) * MINUTE
  {
    var elapsed := (at - SESSION_OPEN) / MINUTE;
    match interval
    case FifteenMinutes => MultipleOf(elapsed / 15, 15 * MINUTE);
    case FiveMinutes => MultipleOf(elapsed / 5, 5 * MINUTE);
    case OneMinute => MultipleOf(elapsed, MINUTE);
  }

  lemma StepBack(x: int, d: int, q: int)
    requires d > 0
    ensures x == q * d ==> (x - d) % d == 0
  {
    MultipleOf(q - 1, d);
  }

  lemma GridStep(interval: Interval, end: int)
    ensures OnGrid(interval, end) ==> OnGrid(interval, end - StepOf(interval) * MINUTE)
  {
    var past := end - SESSION_OPEN;
    match interval
    case FifteenMinutes => StepBack(past, 15 * MINUTE, past / (15 * MINUTE));
    case FiveMinutes => StepBack(past, 5 * MINUTE, past / (5 * MINUTE));
    case OneMinute => StepBack(past, MINUTE, past / MINUTE);
  }

  /** For five and fifteen minutes: the latest grid point that is more than two minutes old. */
  lemma CompletedEndIsSettled(interval: Interval, at: int)
    requires SESSION_OPEN <= at < SESSION_CLOSE && interval != OneMinute
    ensures CompletedEnd(interval, at).None? <==> at <= SESSION_OPEN + 120 * SECOND
    ensures CompletedEnd(interval, at).Some? ==>
              var end := CompletedEnd(interval, at).value;
              && SESSION_OPEN <= end && OnGrid(interval, end)
              && at - end > 120 * SECOND
              && at - (end + StepOf(interval) * MINUTE) <= 120 * SECOND
  {
    FlooredIsGridPoint(interval, at);
    GridStep(interval, Floored(interval, at));
  }

  /** For one minute the same code steps back one minute only, so the end is never more than two
      minutes old: the two-minute margin does not hold. */
  lemma OneMinuteEndIsRecent(at: int)
    requires SESSION_OPEN <= at < SESSION_CLOSE
    ensures CompletedEnd(OneMinute, at).Some? ==> MINUTE <= at - CompletedEnd(OneMinute, at).value < 120 * SECOND
  {
    FlooredIsGridPoint(OneMinute, at);
  }

  /** On a trading day, from the open on. */
  function SessionEnd(interval: Interval, at: int): Option<int>
    requires at >= SESSION_OPEN
  {
    if at >= SESSION_CLOSE then Some(SESSION_CLOSE) else CompletedEnd(interval, at)
  }

  /** The end is more than two minutes old exactly for the longer intervals during the session, and for
      every interval from two minutes after the close on; at the close itself it has no age at all. */
  lemma MarginHoldsExactly(interval: Interval, at: int)
    requires SESSION_OPEN <= at && SessionEnd(interval, at).Some?
    ensures at - SessionEnd(interval, at).value > 120 * SECOND
            <==> if at >= SESSION_CLOSE then at > SESSION_CLOSE + 120 * SECOND else interval != OneMinute
    ensures at == SESSION_CLOSE ==> at - SessionEnd(interval, at).value == 0
  {
    if at < SESSION_CLOSE {
      if interval == OneMinute {
        OneMinuteEndIsRecent(at);
      } else {
        CompletedEndIsSettled(interval, at);
      }
    }
  }

  // ---- the VWAP of the session's bars ----

  datatype Bar = Bar(
    start: int,
    end: int,
    open: real,
    high: real,
    low: real,
    close: real,
    volume: int,
    fromKite: bool,
    fiveMinute: bool)

  predicate Sane(b: Bar) {
    && b.end - b.start == FIVE_MINUTES
    && b.low > 0.0 && b.low <= MinReal(b.open, b.close) && MaxReal(b.open, b.close) <= b.high
    && b.volume >= 0
  }

  /** The bars follow one another without gap or overlap from `from` up to `to`. */
  predicate Tiles(bars: seq<Bar>, from: int, to: int) {
    if bars == [] then from == to
    else
      var last := bars[|bars| - 1];
      last.end == to && Sane(last) && Tiles(bars[..|bars| - 1], from, last.start)
  }

  function Turnover(b: Bar): real {
    Times((b.high + b.low + b.close) / 3.0, b.volume as real)
  }

  function TotalTurnover(bars: seq<Bar>): real {
    if bars == [] then 0.0 else TotalTurnover(bars[..|bars| - 1]) + Turnover(bars[|bars| - 1])
  }

  function TotalVolume(bars: seq<Bar>): int {
    if bars == [] then 0 else TotalVolume(bars[..|bars| - 1]) + bars[|bars| - 1].volume
  }

  datatype Tally = Incomplete | Complete(value: real, volume: int)

  /** Where a tiling ends is determined by where it starts. */
  lemma TilesMeet(bars: seq<Bar>, from: int, a: int, b: int)
    requires Tiles(bars, from, a) && Tiles(bars, from, b)
    ensures a == b
  {
  }

  lemma TilesFirst(bars: seq<Bar>, from: int, to: int)
    requires |bars| == 1 && Tiles(bars, from, to)
    ensures bars[0].start == from
  {
    assert bars[..0] == [];
  }

  lemma {:induction false} TilesPrefix(bars: seq<Bar>, from: int, to: int, n: nat)
    requires Tiles(bars, from, to) && 0 < n <= |bars|
    ensures Sane(bars[n - 1]) && Tiles(bars[..n - 1], from, bars[n - 1].start)
    decreases |bars|
  {
    if n < |bars| {
      TilesPrefix(bars[..|bars| - 1], from, bars[|bars| - 1].start, n);
      assert bars[..|bars| - 1][..n - 1] == bars[..n - 1];
    }
  }

  /** The scan of the sorted bars. */
  method Scan(bars: seq<Bar>, start: int, end: int) returns (t: Tally)
    ensures t.Complete? <==> bars != [] && Tiles(bars, start, end) && TotalVolume(bars) > 0
    ensures t.Complete? ==> t.volume == TotalVolume(bars)
    ensures t.Complete? ==> t.value == RoundSix(TotalTurnover(bars) / TotalVolume(bars) as real)
  {
    var expected := start;
    var valid := bars != [] && bars[0].start == expected;
    var numerator, totalVolume := 0.0, 0;
    for i := 0 to |bars|
      invariant Tiles(bars[..i], start, expected)
      invariant numerator == TotalTurnover(bars[..i]) && totalVolume == TotalVolume(bars[..i])
      invariant i > 0 ==> valid
      invariant bars == [] ==> !valid
    {
      var bar := bars[i];
      assert bars[..i + 1][..i] == bars[..i];
      if bar.start != expected || !Sane(bar) {
        if Tiles(bars, start, end) {
          TilesPrefix(bars, start, end, i + 1);
          TilesMeet(bars[..i], start, expected, bar.start);
        }
        return Incomplete;
      }
      if i == 0 {
        TilesFirst(bars[..1], start, bar.end);
      }
      numerator := numerator + (bar.high + bar.low + bar.close) / 3.0 * bar.volume as real;
      totalVolume := totalVolume + bar.volume;
      expected := bar.end;
    }
    assert bars[..|bars|] == bars;
    if expected != end || totalVolume <= 0 {
      if Tiles(bars, start, end) {
        TilesMeet(bars, start, expected, end);
      }
      valid := false;
    }
    if valid {
      return Complete(RoundSix(numerator / totalVolume as real), totalVolume);
    }
    return Incomplete;
  }

  // ---- what a complete session looks like ----

  /** The bars lie inside the tiled time, one after the other. */
  lemma {:induction false} TilesAreOrdered(bars: seq<Bar>, from: int, to: int)
    requires Tiles(bars, from, to)
    ensures forall i, j :: 0 <= i < j < |bars| ==> bars[i].end <= bars[j].start
    ensures forall i :: 0 <= i < |bars| ==> from <= bars[i].start < bars[i].end <= to
    ensures from <= to
  {
    if bars != [] {
      var n := |bars| - 1;
      TilesAreOrdered(bars[..n], from, bars[n].start);
      forall i | 0 <= i < n
        ensures from <= bars[i].start < bars[i].end <= bars[n].start
      {
        assert bars[i] == bars[..n][i];
      }
      forall i, j | 0 <= i < j < n
        ensures bars[i].end <= bars[j].start
      {
        assert bars[i] == bars[..n][i] && bars[j] == bars[..n][j];
      }
    }
  }

  /** Every moment of the session falls into a bar, and the bars are five minutes each. */
  lemma {:induction false} TilesCover(bars: seq<Bar>, from: int, to: int, moment: int)
    requires Tiles(bars, from, to)
    ensures to == from + |bars| * FIVE_MINUTES
    ensures from <= moment < to ==> exists i :: 0 <= i < |bars| && bars[i].start <= moment < bars[i].end
  {
    if bars != [] {
      var n := |bars| - 1;
      TilesCover(bars[..n], from, bars[n].start, moment);
      if from <= moment < bars[n].start {
        var i :| 0 <= i < n && bars[..n][i].start <= moment < bars[..n][i].end;
        assert bars[i].start <= moment < bars[i].end;
      }
    }
  }

  lemma BarsApart(bars: seq<Bar>, from: int, to: int, i: nat, j: nat)
    requires Tiles(bars, from, to) && i <= j < |bars|
    ensures i < j ==> bars[i].start < bars[j].start
  {
    TilesAreOrdered(bars, from, to);
  }

  ghost predicate TradedWithin(bars: seq<Bar>, lo: real, hi: real) {
    forall i :: 0 <= i < |bars| && bars[i].volume > 0 ==> lo <= bars[i].low && bars[i].high <= hi
  }

  lemma {:induction false} TurnoverBounds(bars: seq<Bar>, from: int, to: int, lo: real, hi: real)
    requires Tiles(bars, from, to) && TradedWithin(bars, lo, hi)
    ensures Times(lo, TotalVolume(bars) as real) <= TotalTurnover(bars) <= Times(hi, TotalVolume(bars) as real)
  {
    if bars != [] {
      var n := |bars| - 1;
      var b := bars[n];
      assert forall i :: 0 <= i < n ==> bars[..n][i] == bars[i];
      TurnoverBounds(bars[..n], from, b.start, lo, hi);
      Indicators.TurnoverWithin((b.high + b.low + b.close) / 3.0, b.volume as real, lo, hi);
      Indicators.AddBounds(TotalTurnover(bars[..n]), TotalVolume(bars[..n]) as real, Turnover(b), b.volume as real, lo, hi);
      assert TotalVolume(bars) as real == TotalVolume(bars[..n]) as real + b.volume as real;
    }
  }

  lemma SessionVwapWithin(bars: seq<Bar>, from: int, to: int, lo: real, hi: real)
    requires Tiles(bars, from, to) && TradedWithin(bars, lo, hi) && TotalVolume(bars) > 0
    ensures RoundSix(lo) <= RoundSix(TotalTurnover(bars) / TotalVolume(bars) as real) <= RoundSix(hi)
  {
    TurnoverBounds(bars, from, to, lo, hi);
    Indicators.AverageWithin(TotalTurnover(bars), TotalVolume(bars) as real, lo, hi);
    RoundSixIsMonotone(lo, TotalTurnover(bars) / TotalVolume(bars) as real);
    RoundSixIsMonotone(TotalTurnover(bars) / TotalVolume(bars) as real, hi);
  }

  // ---- the service ----

  /** The bars the service looks at, in the order they were delivered. */
  function Kept(bars: seq<Bar>, end: int): seq<Bar> {
    if bars == [] then []
    else
      var before, b := Kept(bars[..|bars| - 1], end), bars[|bars| - 1];
      if b.fromKite && b.fiveMinute && b.start >= SESSION_OPEN && b.end <= end then before + [b] else before
  }

  /** What the service sorts the bars by. */
  function StartOf(b: Bar): int {
    b.start
  }

  datatype Reason = OutsideSession | KiteDown | NotListed | NoCompletedBars | IncompleteBars | FetchFailed

  datatype Answer = Unavailable(reason: Reason) | Available(value: real, contract: string, through: int, count: nat, volume: int)

  datatype Feed = Inactive | ResolveFailed | NoFuture | Listed(contract: string, bars: Option<seq<Bar>>)

  datatype Cached = Cached(at: real, answer: Answer)

  predicate Open(day: int, at: int) {
    Weekday(day) < 5 && SESSION_OPEN + FIVE_MINUTES <= at <= SESSION_CLOSE
  }

  predicate Fresh(cache: Option<Cached>, clock: real) {
    cache.Some? && clock - cache.value.at < if cache.value.answer.Available? then 55.0 else 10.0
  }

  /** The answer of a fetch, as the documentation promises it: a value only for a session whose bars,
      once sorted, tile it and traded. */
  function Fetched(at: int, feed: Feed): Answer
    requires at >= SESSION_OPEN
  {
    match feed
    case Inactive => Unavailable(KiteDown)
    case ResolveFailed => Unavailable(FetchFailed)
    case NoFuture => Unavailable(NotListed)
    case Listed(contract, bars) =>
      var end := SessionEnd(FiveMinutes, at);
      if end.None? || end.value <= SESSION_OPEN then Unavailable(NoCompletedBars)
      else if bars.None? then Unavailable(FetchFailed)
      else
        var sorted := SortedBy(Kept(bars.value, end.value), StartOf);
        if sorted != [] && Tiles(sorted, SESSION_OPEN, end.value) && TotalVolume(sorted) > 0 then
          Available(RoundSix(TotalTurnover(sorted) / TotalVolume(sorted) as real), contract, end.value, |sorted|, TotalVolume(sorted))
        else Unavailable(IncompleteBars)
  }

  class HistoricalService {
    var futuresVwapCache: Option<Cached>

    constructor ()
      ensures futuresVwapCache == None
    {
      futuresVwapCache := None;
    }

    method SetBrokerGateway()
      modifies this
      ensures futuresVwapCache == None
    {
      futuresVwapCache := None;
    }

    method GetNiftyFuturesSessionVwap(day: int, at: int, clock: real, storedAt: real, feed: Feed) returns (answer: Answer)
      modifies this
      ensures !Open(day, at) ==> answer == Unavailable(OutsideSession) && futuresVwapCache == old(futuresVwapCache)
      ensures Open(day, at) && Fresh(old(futuresVwapCache), clock) ==>
                answer == old(futuresVwapCache).value.answer && futuresVwapCache == old(futuresVwapCache)
      ensures Open(day, at) && !Fresh(old(futuresVwapCache), clock) ==>
                answer == Fetched(at, feed) && futuresVwapCache == Some(Cached(storedAt, answer))
    {
      if Weekday(day) >= 5 || !(SESSION_OPEN + FIVE_MINUTES <= at <= SESSION_CLOSE) {
        return Unavailable(OutsideSession);
      }
      if Fresh(futuresVwapCache, clock) {
        return futuresVwapCache.value.answer;
      }
      match feed {
        case Inactive => answer := Unavailable(KiteDown);
        case ResolveFailed => answer := Unavailable(FetchFailed);
        case NoFuture => answer := Unavailable(NotListed);
        case Listed(contract, delivered) =>
          var end := ExpectedCompletedEnd(FiveMinutes, day, at);
          if end.None? || end.value.at <= SESSION_OPEN {
            answer := Unavailable(NoCompletedBars);
          } else if delivered.None? {
            answer := Unavailable(FetchFailed);
          } else {
            var bars := SortedBy(Kept(delivered.value, end.value.at), StartOf);
            var tally := Scan(bars, SESSION_OPEN, end.value.at);
            answer := if tally.Complete? then Available(tally.value, contract, end.value.at, |bars|, tally.volume)
                      else Unavailable(IncompleteBars);
          }
      }
      futuresVwapCache := Some(Cached(storedAt, answer));
    }
  }

  // ---- the order of delivery does not matter ----

  /** The last of ordered bars is the last of the tiling they come from. */
  lemma LastOfTiling(sorted: seq<Bar>, tiling: seq<Bar>, from: int, to: int)
    requires OrderedBy(sorted, StartOf) && Tiles(tiling, from, to) && tiling != [] && Arrangement(sorted, tiling)
    ensures sorted != [] && sorted[|sorted| - 1] == tiling[|tiling| - 1]
  {
    var n := |tiling| - 1;
    var k := MemberAt(tiling, sorted, n);
    var j := MemberAt(sorted, tiling, |sorted| - 1);
    assert sorted[k].start <= sorted[|sorted| - 1].start;
    BarsApart(tiling, from, to, j, n);
  }

  /** An ordered arrangement of a tiling's bars is the tiling. */
  lemma {:induction false} OrderedIsTiling(sorted: seq<Bar>, tiling: seq<Bar>, from: int, to: int)
    requires OrderedBy(sorted, StartOf) && Tiles(tiling, from, to) && Arrangement(sorted, tiling)
    ensures sorted == tiling
  {
    if tiling == [] {
      SameLength(sorted, tiling);
    } else {
      var n := |tiling| - 1;
      LastOfTiling(sorted, tiling, from, to);
      ArrangementWithoutLast(sorted, tiling);
      OrderedIsTiling(sorted[..|sorted| - 1], tiling[..n], from, tiling[n].start);
      assert sorted == sorted[..|sorted| - 1] + [sorted[|sorted| - 1]] && tiling == tiling[..n] + [tiling[n]];
    }
  }

  /** A value is published exactly when the delivered bars can be arranged into a gapless session that
      traded; it is then the rounded volume-weighted price of that one arrangement. */
  lemma AvailableExactlyWhenSessionTiles(at: int, contract: string, delivered: seq<Bar>, end: int, tiling: seq<Bar>)
    requires at >= SESSION_OPEN && SessionEnd(FiveMinutes, at) == Some(end) && end > SESSION_OPEN
    ensures var answer := Fetched(at, Listed(contract, Some(delivered)));
            var kept := Kept(delivered, end);
            && (answer.Available? ==>
                  && Arrangement(kept, SortedBy(kept, StartOf)) && Tiles(SortedBy(kept, StartOf), SESSION_OPEN, end)
                  && TotalVolume(SortedBy(kept, StartOf)) > 0)
            && (Arrangement(kept, tiling) && Tiles(tiling, SESSION_OPEN, end) && TotalVolume(tiling) > 0 ==>
                  answer == Available(RoundSix(TotalTurnover(tiling) / TotalVolume(tiling) as real), contract, end, |tiling|, TotalVolume(tiling)))
  {
    var kept := Kept(delivered, end);
    SortedIsOrdered(kept, StartOf);
    SortedHolds(kept, StartOf);
    if Arrangement(kept, tiling) && Tiles(tiling, SESSION_OPEN, end) && TotalVolume(tiling) > 0 {
      OrderedIsTiling(SortedBy(kept, StartOf), tiling, SESSION_OPEN, end);
    }
  }

  // ---- the parts, spelled out ----

  /** A tiling: five-minute bars with positive prices, properly ordered, each starting where the one before ended,
      the first at `from` and the last ending at `to`. */
  lemma {:induction false} TilesExactly(bars: seq<Bar>, from: int, to: int)
    requires bars != []
    ensures Tiles(bars, from, to) <==>
              && bars[0].start == from && bars[|bars| - 1].end == to
              && (forall i :: 0 < i < |bars| ==> bars[i].start == bars[i - 1].end)
              && (forall i :: 0 <= i < |bars| ==>
                    var b := bars[i];
                    && b.end == b.start + 300_000_000 && 0.0 < b.low && b.low <= b.open <= b.high && b.low <= b.close <= b.high
                    && b.volume >= 0)
  {
    var n := |bars| - 1;
    if n == 0 {
      assert bars[..0] == [];
    } else {
      TilesExactly(bars[..n], from, bars[n].start);
    }
  }

  /** The service looks at exactly Kite's five-minute bars that start no earlier than 09:15 and end by `end`. */
  lemma {:induction false} KeptExactly(bars: seq<Bar>, end: int, b: Bar)
    ensures multiset(Kept(bars, end))[b]
         == if b.fromKite && b.fiveMinute && 33_300_000_000 <= b.start && b.end <= end then multiset(bars)[b] else 0
  {
    if bars != [] {
      var n := |bars| - 1;
      KeptExactly(bars[..n], end, b);
      assert bars == bars[..n] + [bars[n]];
    }
  }

  lemma ThirdOf(x: real, y: real)
    ensures Times(x / 3.0, y) * 3.0 == x * y
  {
    assert x / 3.0 * 3.0 == x;
    assert Times(x / 3.0, y) * 3.0 == (x / 3.0 * 3.0) * y;
  }

  /** The value of one bar is its typical price, and volumes and turnovers of stretches add up. */
  lemma {:induction false} TurnoverAdds(a: seq<Bar>, b: seq<Bar>, c: Bar)
    ensures TotalTurnover([c]) * 3.0 == (c.high + c.low + c.close) * c.volume as real && TotalVolume([c]) == c.volume
    ensures TotalTurnover(a + b) == TotalTurnover(a) + TotalTurnover(b)
    ensures TotalVolume(a + b) == TotalVolume(a) + TotalVolume(b)
  {
    assert [c][..0] == [];
    ThirdOf(c.high + c.low + c.close, c.volume as real);
    if b == [] {
      assert a + b == a;
    } else {
      TurnoverAdds(a, b[..|b| - 1], c);
      assert (a + b)[..|a + b| - 1] == a + b[..|b| - 1];
    }
  }

  /** The window is Monday to Friday, 09:20 to 15:30; a published value is served for 55 seconds from the cache, a
      failure for 10. */
  lemma ServiceHours(day: int, at: int, cached: Cached, clock: real)
    ensures Open(day, at) <==> day % 7 !in {5, 6} && (9 * 60 + 20) * 60_000_000 <= at <= (15 * 60 + 30) * 60_000_000
    ensures Fresh(Some(cached), clock) <==> (if cached.answer.Available? then clock < cached.at + 55.0 else clock < cached.at + 10.0)
    ensures !Fresh(None, clock)
  {
  }
}
