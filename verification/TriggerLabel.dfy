/** Strategy A's research label: whether and where a row's trigger fires, and what the trade then
    reaches before its stop. The reach is specified in R units, as for Strategy C's lifecycle. */
module TriggerLabel {
  import opened Common
  import opened Lifecycle
  import opened LifecycleProperties

  datatype Tunables = Tunables(
    validityBars: nat,
    entryStart: int,
    entryEnd: int,
    maximumChaseAtr: real,
    t1R: real,
    runnerR: real)

  datatype Row = Row(direction: Direction, trigger: Option<real>, stop: Option<real>, riskPoints: Option<real>)

  datatype Status = Unlabelable | Expired | Invalidated | SessionClosed | ChaseRejected

  datatype Search = Missed(status: Status) | Entry(bar: Bar, price: real)

  const EPSILON := 0.000000001

  // ---- the search for the entry ----

  predicate Invalid(d: Direction, bar: Bar, stop: real) {
    if d == Call then bar.close <= stop else bar.close >= stop
  }

  predicate Gap(d: Direction, bar: Bar, trigger: real) {
    if d == Call then bar.open >= trigger else bar.open <= trigger
  }

  predicate Touched(d: Direction, bar: Bar, trigger: real) {
    if d == Call then bar.high >= trigger else bar.low <= trigger
  }

  function MinuteOfDay(time: int): int {
    time % DAY / 60
  }

  function Chase(d: Direction, price: real, trigger: real): real {
    if d == Call then price - trigger else trigger - price
  }

  /** What one bar decides; None when the search goes on. `atr` is the bar's ATR, or the row's. */
  function Decision(d: Direction, bar: Bar, trigger: real, stop: real, atr: real, c: Tunables): Option<Search> {
    if Invalid(d, bar, stop) then Some(Missed(Invalidated))
    else if !Gap(d, bar, trigger) && !Touched(d, bar, trigger) then None
    else if !(c.entryStart <= MinuteOfDay(bar.end) <= c.entryEnd) then Some(Missed(SessionClosed))
    else
      var price := if Gap(d, bar, trigger) then bar.open else trigger;
      if Chase(d, price, trigger) > c.maximumChaseAtr * atr + EPSILON then Some(Missed(ChaseRejected))
      else Some(Entry(bar, price))
  }

  function Validity(bars: seq<Bar>, c: Tunables): seq<Bar> {
    bars[..Min(c.validityBars, |bars|)]
  }

  /** The search ends with the first bar that decides anything, or expires when none does. */
  ghost predicate IsFirstDecision(d: Direction, bars: seq<Bar>, trigger: real, stop: real, atr: Bar -> real, c: Tunables,
                                  found: Search) {
    || (found == Missed(Expired) && forall j :: 0 <= j < |bars| ==> Decision(d, bars[j], trigger, stop, atr(bars[j]), c) == None)
    || (exists i :: 0 <= i < |bars| && Decision(d, bars[i], trigger, stop, atr(bars[i]), c) == Some(found)
                    && forall j :: 0 <= j < i ==> Decision(d, bars[j], trigger, stop, atr(bars[j]), c) == None)
  }

  method FindEntry(d: Direction, bars: seq<Bar>, trigger: real, stop: real, atr: Bar -> real, c: Tunables)
      returns (found: Search)
    ensures IsFirstDecision(d, Validity(bars, c), trigger, stop, atr, c, found)
  {
    var validity := Validity(bars, c);
    for i := 0 to |validity|
      invariant forall j :: 0 <= j < i ==> Decision(d, validity[j], trigger, stop, atr(validity[j]), c) == None
    {
      var bar := validity[i];
      if (d == Call && bar.close <= stop) || (d == Put && bar.close >= stop) {
        return Missed(Invalidated);
      }
      var gapTriggered := if d == Call then bar.open >= trigger else bar.open <= trigger;
      var touched := if d == Call then bar.high >= trigger else bar.low <= trigger;
      if !(gapTriggered || touched) {
        continue;
      }
      if !(c.entryStart <= MinuteOfDay(bar.end) <= c.entryEnd) {
        return Missed(SessionClosed);
      }
      var price := if gapTriggered then bar.open else trigger;
      var chase := if d == Call then price - trigger else trigger - price;
      if chase > c.maximumChaseAtr * atr(bar) + EPSILON {
        return Missed(ChaseRejected);
      }
      return Entry(bar, price);
    }
    return Missed(Expired);
  }

  /** There is only one such outcome. */
  lemma FirstDecisionIsUnique(d: Direction, bars: seq<Bar>, trigger: real, stop: real, atr: Bar -> real, c: Tunables,
                              x: Search, y: Search)
    requires IsFirstDecision(d, bars, trigger, stop, atr, c, x) && IsFirstDecision(d, bars, trigger, stop, atr, c, y)
    ensures x == y
  {
  }

  /** An entry is never better than the trigger nor further past it than the chase limit, its bar
      closed on the right side of the stop inside the session, and a proper bar traded at its price. */
  lemma EntryIsFair(d: Direction, bars: seq<Bar>, trigger: real, stop: real, atr: Bar -> real, c: Tunables, bar: Bar, price: real)
    requires IsFirstDecision(d, bars, trigger, stop, atr, c, Entry(bar, price))
    ensures bar in bars && 0.0 <= Chase(d, price, trigger)
    ensures Chase(d, price, trigger) <= c.maximumChaseAtr * atr(bar) + EPSILON
    ensures !Invalid(d, bar, stop) && c.entryStart <= MinuteOfDay(bar.end) <= c.entryEnd
    ensures ProperBar(bar) ==> bar.low <= price <= bar.high
  {
  }

  // ---- what the trade reaches ----

  /** The bars that end after the entry bar, up to the cutoff. */
  function Post(bars: seq<Bar>, from: int, cutoff: int): seq<Bar> {
    if bars == [] then []
    else
      var last := bars[|bars| - 1];
      Post(bars[..|bars| - 1], from, cutoff) + (if last.end > from && last.end <= cutoff then [last] else [])
  }

  datatype Tally = Tally(
    favorable: real, adverse: real, hit1: bool, hitT1: bool, hitRunner: bool, stopFirst: bool, done: bool)

  /** One bar: the stop wins over every target of its own bar, and a runner hit ends the scan. */
  function Step(k: Tally, b: RBar, stop: real, c: Tunables): Tally {
    if k.done then k
    else
      var seen := k.(favorable := MaxReal(k.favorable, b.best), adverse := MaxReal(k.adverse, -b.worst));
      if b.worst <= stop then seen.(stopFirst := !k.hitT1, done := true)
      else
        var runner := k.hitRunner || b.best >= c.runnerR;
        seen.(hit1 := k.hit1 || b.best >= 1.0, hitT1 := k.hitT1 || b.best >= c.t1R, hitRunner := runner, done := runner)
  }

  function Count(bars: seq<RBar>, stop: real, c: Tunables): Tally {
    if bars == [] then Tally(0.0, 0.0, false, false, false, false, false)
    else Step(Count(bars[..|bars| - 1], stop, c), bars[|bars| - 1], stop, c)
  }

  lemma {:induction false} DoneIsFinal(bars: seq<RBar>, i: nat, stop: real, c: Tunables)
    requires i <= |bars| && Count(bars[..i], stop, c).done
    ensures Count(bars, stop, c) == Count(bars[..i], stop, c)
  {
    if i == |bars| {
      assert bars[..i] == bars;
    } else {
      assert bars[..|bars| - 1][..i] == bars[..i];
      DoneIsFinal(bars[..|bars| - 1], i, stop, c);
    }
  }

  function FirstHitR(k: Tally, sessionExitR: real, c: Tunables): real {
    if k.hitT1 then c.t1R
    else if k.stopFirst then -1.0
    else MaxReal(-1.0, MinReal(c.t1R, sessionExitR))
  }

  datatype Label = Label(
    maxFavorable: real, maxAdverse: real, hit1: bool, hitT1: bool, hitRunner: bool, firstHitR: real, sessionExitR: real, bars: nat)

  function Labelled(k: Tally, exitR: real, bars: nat, c: Tunables): Label {
    Label(k.favorable, k.adverse, k.hit1, k.hitT1, k.hitRunner, FirstHitR(k, exitR, c), exitR, bars)
  }

  function LastClose(entryClose: real, post: seq<Bar>): real {
    if post == [] then entryClose else post[|post| - 1].close
  }

  function LabelOf(t: Trigger, entryClose: real, post: seq<Bar>, c: Tunables): Label
    requires Risk(t) > 0.0
  {
    Labelled(Count(BarsInR(t, post), InR(t, t.stop), c), InR(t, LastClose(entryClose, post)), |post|, c)
  }

  /** Whether the favourable extreme of a bar is at or past a level, in prices. */
  method HitsLevel(t: Trigger, extreme: real, level: real) returns (hit: bool)
    requires Risk(t) > 0.0
    ensures hit <==> InR(t, extreme) >= level
  {
    PriceVersusR(t, extreme, level);
    hit := if t.direction == Call then extreme >= t.entry + level * Risk(t) else extreme <= t.entry - level * Risk(t);
  }

  method HitsStop(t: Trigger, extreme: real) returns (hit: bool)
    requires Risk(t) > 0.0
    ensures hit <==> InR(t, extreme) <= InR(t, t.stop)
  {
    PriceVersusR(t, extreme, InR(t, t.stop));
    PriceVersusR(t, t.stop, 0.0);
    hit := if t.direction == Call then extreme <= t.stop else extreme >= t.stop;
  }

  method Excursions(t: Trigger, bar: Bar) returns (favorable: real, adverse: real)
    requires Risk(t) > 0.0
    ensures favorable == BarInR(t, bar).best && adverse == -BarInR(t, bar).worst
  {
    AdverseIsOpposite(t, bar);
    if t.direction == Call {
      favorable := (bar.high - t.entry) / Risk(t);
      adverse := (t.entry - bar.low) / Risk(t);
    } else {
      favorable := (t.entry - bar.low) / Risk(t);
      adverse := (bar.high - t.entry) / Risk(t);
    }
  }

  /** The tests of one bar. */
  method ScanBar(t: Trigger, bar: Bar, before: Tally, c: Tunables) returns (k: Tally)
    requires Risk(t) > 0.0 && !before.done
    ensures k == Step(before, BarInR(t, bar), InR(t, t.stop), c)
  {
    var best, worst := if t.direction == Call then bar.high else bar.low, if t.direction == Call then bar.low else bar.high;
    var favorable, adverse := Excursions(t, bar);
    var stopHit := HitsStop(t, worst);
    var oneHit := HitsLevel(t, best, 1.0);
    var t1Hit := HitsLevel(t, best, c.t1R);
    var runnerHit := HitsLevel(t, best, c.runnerR);
    k := before.(favorable := MaxReal(before.favorable, favorable), adverse := MaxReal(before.adverse, adverse));
    if stopHit {
      k := k.(stopFirst := !k.hitT1, done := true);
    } else {
      k := k.(hit1 := k.hit1 || oneHit, hitT1 := k.hitT1 || t1Hit, hitRunner := k.hitRunner || runnerHit);
      k := k.(done := k.hitRunner);
    }
  }

  method LabelTrade(t: Trigger, entryClose: real, bars: seq<Bar>, c: Tunables) returns (outcome: Option<Label>)
    ensures Risk(t) <= 0.0 ==> outcome == None
    ensures Risk(t) > 0.0 ==> outcome == Some(LabelOf(t, entryClose, Post(bars, t.entryEnd, Cutoff(t)), c))
  {
    if Risk(t) <= 0.0 {
      return None;
    }
    var post := Post(bars, t.entryEnd, Cutoff(t));
    ghost var rs := BarsInR(t, post);
    ghost var stop := InR(t, t.stop);
    var k := Tally(0.0, 0.0, false, false, false, false, false);
    var i := 0;
    while i < |post| && !k.done
      invariant 0 <= i <= |post|
      invariant k == Count(rs[..i], stop, c)
    {
      assert rs[..i + 1][..i] == rs[..i];
      k := ScanBar(t, post[i], k, c);
      i := i + 1;
    }
    if k.done {
      DoneIsFinal(rs, i, stop, c);
    } else {
      assert rs[..i] == rs;
    }
    var exitR := InR(t, LastClose(entryClose, post));
    return Some(Labelled(k, exitR, |post|, c));
  }

  // ---- what the flags mean ----

  ghost predicate Clear(bars: seq<RBar>, stop: real, n: nat)
    requires n <= |bars|
  {
    forall j :: 0 <= j < n ==> bars[j].worst > stop
  }

  /** Some bar reaches the level while the stop has not been touched, in that bar included. */
  ghost predicate Reached(bars: seq<RBar>, stop: real, level: real) {
    exists i :: 0 <= i < |bars| && bars[i].best >= level && Clear(bars, stop, i + 1)
  }

  ghost predicate Stopped(bars: seq<RBar>, stop: real) {
    !Clear(bars, stop, |bars|)
  }

  lemma ReachedStep(bars: seq<RBar>, stop: real, level: real)
    requires bars != []
    ensures var n := |bars| - 1;
            Reached(bars, stop, level) <==> Reached(bars[..n], stop, level) || (Clear(bars, stop, n + 1) && bars[n].best >= level)
    ensures var n := |bars| - 1;
            Stopped(bars, stop) <==> Stopped(bars[..n], stop) || bars[n].worst <= stop
  {
    var n := |bars| - 1;
    assert forall j :: 0 <= j < n ==> bars[..n][j] == bars[j];
    if Reached(bars[..n], stop, level) {
      var i :| 0 <= i < n && bars[..n][i].best >= level && Clear(bars[..n], stop, i + 1);
      assert Clear(bars, stop, i + 1);
    }
    if Reached(bars, stop, level) {
      var i :| 0 <= i <= n && bars[i].best >= level && Clear(bars, stop, i + 1);
      if i < n {
        assert Clear(bars[..n], stop, i + 1);
      }
    }
    if !Stopped(bars[..n], stop) {
      assert Clear(bars[..n], stop, n);
      assert Clear(bars, stop, n);
    }
  }

  /** The state of the scan in terms of what was reached. */
  ghost predicate Meaning(bars: seq<RBar>, stop: real, c: Tunables) {
    var k := Count(bars, stop, c);
    && (k.hitRunner <==> Reached(bars, stop, c.runnerR))
    && (1.0 <= c.runnerR ==> (k.hit1 <==> Reached(bars, stop, 1.0)))
    && (c.t1R <= c.runnerR ==> (k.hitT1 <==> Reached(bars, stop, c.t1R)))
    && (c.t1R <= c.runnerR ==> (k.stopFirst <==> Stopped(bars, stop) && !Reached(bars, stop, c.t1R)))
    && (k.done <==> k.hitRunner || Stopped(bars, stop))
  }

  lemma ClearUnlessStopped(bars: seq<RBar>, stop: real)
    requires bars != []
    ensures var n := |bars| - 1; Clear(bars, stop, n + 1) <==> !Stopped(bars[..n], stop) && bars[n].worst > stop
  {
    var n := |bars| - 1;
    assert forall j :: 0 <= j < n ==> bars[..n][j] == bars[j];
    if !Stopped(bars[..n], stop) {
      assert Clear(bars, stop, n);
    }
  }

  lemma HigherIsHarder(bars: seq<RBar>, stop: real, low: real, high: real)
    ensures low <= high && Reached(bars, stop, high) ==> Reached(bars, stop, low)
  {
  }

  /** Levels up to the runner's are hit exactly when price reached them before the stop, and the stop
      comes first exactly when it was touched and the first target was not reached before. */
  lemma {:induction false} FlagsMean(bars: seq<RBar>, stop: real, c: Tunables)
    ensures Meaning(bars, stop, c)
  {
    if bars != [] {
      var n := |bars| - 1;
      FlagsMean(bars[..n], stop, c);
      ReachedStep(bars, stop, c.runnerR);
      ReachedStep(bars, stop, 1.0);
      ReachedStep(bars, stop, c.t1R);
      HigherIsHarder(bars[..n], stop, c.t1R, c.runnerR);
      HigherIsHarder(bars[..n], stop, 1.0, c.runnerR);
      ClearUnlessStopped(bars, stop);
    }
  }

  /** So the flags nest as their names say when the levels do. */
  lemma FlagsNest(bars: seq<RBar>, stop: real, c: Tunables)
    requires 1.0 <= c.t1R <= c.runnerR
    ensures var k := Count(bars, stop, c); (k.hitRunner ==> k.hitT1) && (k.hitT1 ==> k.hit1)
  {
    FlagsMean(bars, stop, c);
    HigherIsHarder(bars, stop, c.t1R, c.runnerR);
    HigherIsHarder(bars, stop, 1.0, c.t1R);
  }

  ghost predicate T1IsExact(bars: seq<RBar>, stop: real, c: Tunables) {
    Count(bars, stop, c).hitT1 <==> Reached(bars, stop, c.t1R)
  }

  /** The settings do not order the two targets. The first-target flag means what it says on every
      chart exactly when the runner's level is not below it: otherwise a runner hit ends the scan. */
  lemma T1FlagIsExact(stop: real, c: Tunables)
    requires stop < 0.0 < c.t1R
    ensures (forall bars :: T1IsExact(bars, stop, c)) <==> c.t1R <= c.runnerR
  {
    if c.t1R <= c.runnerR {
      forall bars ensures T1IsExact(bars, stop, c) {
        FlagsMean(bars, stop, c);
      }
    } else {
      var bars := [RBar(1, c.runnerR, 0.0, 0.0), RBar(2, c.t1R, 0.0, 0.0)];
      assert bars[..1] == [bars[0]] && bars[..1][..0] == [];
      assert Count(bars[..1], stop, c).done && !Count(bars[..1], stop, c).hitT1;
      DoneIsFinal(bars, 1, stop, c);
      assert bars[1].best >= c.t1R && Clear(bars, stop, 2);
      assert !T1IsExact(bars, stop, c);
    }
  }

  /** The label is the first target's R when it was reached before the stop, -1 when the stop came
      first, and otherwise the session's result clipped to that range, in which it always lies. */
  lemma FirstHitMeans(bars: seq<RBar>, stop: real, exitR: real, c: Tunables)
    requires 0.0 < c.t1R
    ensures var k := Count(bars, stop, c);
            && -1.0 <= FirstHitR(k, exitR, c) <= c.t1R
            && (c.t1R <= c.runnerR ==>
                  FirstHitR(k, exitR, c) == if Reached(bars, stop, c.t1R) then c.t1R
                                            else if Stopped(bars, stop) then -1.0
                                            else MaxReal(-1.0, MinReal(c.t1R, exitR)))
  {
    FlagsMean(bars, stop, c);
  }

  // ---- mirror symmetry ----

  lemma {:induction false} PostOfMirrorAfter(bars: seq<Bar>, about: real, from: int, cutoff: int)
    ensures Post(MirrorBars(bars, about), from, cutoff) == MirrorBars(Post(bars, from, cutoff), about)
  {
    if bars != [] {
      var n := |bars| - 1;
      PostOfMirrorAfter(bars[..n], about, from, cutoff);
      assert MirrorBars(bars, about)[..n] == MirrorBars(bars[..n], about);
    }
  }

  lemma LabelOfMirror(t: Trigger, entryClose: real, post: seq<Bar>, c: Tunables)
    requires Risk(t) > 0.0
    ensures Risk(MirrorTrigger(t)) == Risk(t)
    ensures LabelOf(MirrorTrigger(t), Reflect(entryClose, t.entry), MirrorBars(post, t.entry), c) == LabelOf(t, entryClose, post, c)
  {
    MirrorBarsInR(t, post);
    MirrorInR(t, t.stop);
    MirrorInR(t, LastClose(entryClose, post));
    assert LastClose(Reflect(entryClose, t.entry), MirrorBars(post, t.entry)) == Reflect(LastClose(entryClose, post), t.entry);
  }

  /** CALL on any bars and PUT on the bars reflected about entry get the same label. */
  lemma LabelIsSymmetric(t: Trigger, entryClose: real, bars: seq<Bar>, cutoff: int, c: Tunables)
    requires Risk(t) > 0.0
    ensures Risk(MirrorTrigger(t)) == Risk(t)
    ensures LabelOf(MirrorTrigger(t), Reflect(entryClose, t.entry), Post(MirrorBars(bars, t.entry), t.entryEnd, cutoff), c)
         == LabelOf(t, entryClose, Post(bars, t.entryEnd, cutoff), c)
  {
    PostOfMirrorAfter(bars, t.entry, t.entryEnd, cutoff);
    LabelOfMirror(t, entryClose, Post(bars, t.entryEnd, cutoff), c);
  }

  // ---- the whole row ----

  datatype Outcome = NoEntry(status: Status) | NoRisk(bar: Bar, price: real) | Labeled(bar: Bar, price: real, details: Label)

  predicate Labelable(row: Row) {
    row.trigger.Some? && row.stop.Some? && row.riskPoints.Some? && row.riskPoints.value > 0.0
  }

  function TradeOf(row: Row, bar: Bar, price: real): Trigger
    requires row.stop.Some?
  {
    Trigger(row.direction, bar.end, price, row.stop.value, None, None, None)
  }

  /** The outcome of a row, given what its search found. */
  ghost predicate OutcomeOf(row: Row, future: seq<Bar>, c: Tunables, found: Search, outcome: Outcome)
    requires row.stop.Some?
  {
    match found
    case Missed(status) => outcome == NoEntry(status)
    case Entry(bar, price) =>
      var t := TradeOf(row, bar, price);
      if Risk(t) <= 0.0 then outcome == NoRisk(bar, price)
      else outcome == Labeled(bar, price, LabelOf(t, bar.close, Post(future, bar.end, Cutoff(t)), c))
  }

  method LabelRow(row: Row, future: seq<Bar>, atr: Bar -> real, c: Tunables) returns (outcome: Outcome)
    ensures row.trigger == None || row.stop == None || row.riskPoints == None || row.riskPoints.value <= 0.0 ==>
              outcome == NoEntry(Unlabelable)
    ensures Labelable(row) ==>
              exists found :: IsFirstDecision(row.direction, Validity(future, c), row.trigger.value, row.stop.value, atr, c, found)
                              && OutcomeOf(row, future, c, found, outcome)
  {
    if !Labelable(row) {
      return NoEntry(Unlabelable);
    }
    var found := FindEntry(row.direction, future, row.trigger.value, row.stop.value, atr, c);
    if found.Missed? {
      outcome := NoEntry(found.status);
    } else {
      var details := LabelTrade(TradeOf(row, found.bar, found.price), found.bar.close, future, c);
      outcome := if details == None then NoRisk(found.bar, found.price) else Labeled(found.bar, found.price, details.value);
    }
    assert OutcomeOf(row, future, c, found, outcome);
  }

  // ---- the search and the label, bar by bar ----

  /** The bar closes at or beyond the stop. */
  ghost predicate ClosesBeyond(d: Direction, bar: Bar, stop: real) {
    (d == Call && bar.close <= stop) || (d == Put && stop <= bar.close)
  }

  /** The bar opens at or past the trigger, or trades there. */
  ghost predicate Reaches(d: Direction, bar: Bar, trigger: real) {
    (d == Call && trigger <= MaxReal(bar.open, bar.high)) || (d == Put && MinReal(bar.open, bar.low) <= trigger)
  }

  /** Bar `i` is the first of the validity window that closes beyond the stop or reaches the trigger. */
  ghost predicate ActsFirst(d: Direction, bars: seq<Bar>, trigger: real, stop: real, n: nat, i: int) {
    && 0 <= i < |bars| && i < n && (ClosesBeyond(d, bars[i], stop) || Reaches(d, bars[i], trigger))
    && forall j :: 0 <= j < i ==> !ClosesBeyond(d, bars[j], stop) && !Reaches(d, bars[j], trigger)
  }

  /** The price of an entry: the open of a bar that gaps past the trigger, else the trigger. */
  ghost function EntryPrice(d: Direction, bar: Bar, trigger: real): real {
    if d == Call then MaxReal(bar.open, trigger) else MinReal(bar.open, trigger)
  }

  /** The bar ends between the first and the last minute of the entry session, both included. */
  ghost predicate InSession(bar: Bar, c: Tunables) {
    c.entryStart * 60 <= bar.end % 86400 < c.entryEnd * 60 + 60
  }

  /** What a bar that closes beyond the stop or reaches the trigger settles: the close counts first; a reached
      trigger is taken if the session is open and the price is within the chase limit. */
  ghost function Settled(d: Direction, bar: Bar, trigger: real, stop: real, atr: real, c: Tunables): Search {
    var price := EntryPrice(d, bar, trigger);
    if ClosesBeyond(d, bar, stop) then Missed(Invalidated)
    else if !InSession(bar, c) then Missed(SessionClosed)
    else if Abs(price - trigger) > c.maximumChaseAtr * atr + 0.000000001 then Missed(ChaseRejected)
    else Entry(bar, price)
  }

  lemma BarSettles(d: Direction, bar: Bar, trigger: real, stop: real, atr: real, c: Tunables)
    ensures Decision(d, bar, trigger, stop, atr, c)
         == if ClosesBeyond(d, bar, stop) || Reaches(d, bar, trigger) then Some(Settled(d, bar, trigger, stop, atr, c)) else None
  {
    if Reaches(d, bar, trigger) {
      var price := if Gap(d, bar, trigger) then bar.open else trigger;
      assert price == EntryPrice(d, bar, trigger) && Chase(d, price, trigger) == Abs(price - trigger);
    }
  }

  /** The search is settled by the first bar of the window that closes beyond the stop or reaches the trigger;
      without such a bar it expires. */
  lemma SearchSettledBy(d: Direction, bars: seq<Bar>, trigger: real, stop: real, atr: Bar -> real, c: Tunables, found: Search, i: int)
    requires IsFirstDecision(d, Validity(bars, c), trigger, stop, atr, c, found)
    ensures (forall j :: !ActsFirst(d, bars, trigger, stop, c.validityBars, j)) ==> found == Missed(Expired)
    ensures ActsFirst(d, bars, trigger, stop, c.validityBars, i) ==>
              found == Settled(d, bars[i], trigger, stop, atr(bars[i]), c)
  {
    var window := Validity(bars, c);
    forall j | 0 <= j < |window|
      ensures window[j] == bars[j]
      ensures Decision(d, window[j], trigger, stop, atr(window[j]), c)
           == if ClosesBeyond(d, bars[j], stop) || Reaches(d, bars[j], trigger)
              then Some(Settled(d, bars[j], trigger, stop, atr(bars[j]), c)) else None
    {
      BarSettles(d, bars[j], trigger, stop, atr(bars[j]), c);
    }
    if k :| 0 <= k < |window| && Decision(d, window[k], trigger, stop, atr(window[k]), c) == Some(found)
            && forall j :: 0 <= j < k ==> Decision(d, window[j], trigger, stop, atr(window[j]), c) == None {
      assert ActsFirst(d, bars, trigger, stop, c.validityBars, k);
    }
  }

  lemma {:induction false} PostAppends(a: seq<Bar>, b: seq<Bar>, from: int, cutoff: int)
    ensures Post(a + b, from, cutoff) == Post(a, from, cutoff) + Post(b, from, cutoff)
  {
    if b == [] {
      assert a + b == a;
    } else {
      var n := |b| - 1;
      PostAppends(a, b[..n], from, cutoff);
      assert (a + b)[..|a| + n] == a + b[..n];
      assert (a + b)[|a| + n] == b[n];
      var kept := if b[n].end > from && b[n].end <= cutoff then [b[n]] else [];
      assert Post(a, from, cutoff) + Post(b[..n], from, cutoff) + kept == Post(a, from, cutoff) + (Post(b[..n], from, cutoff) + kept);
    }
  }

  /** A bar counts exactly when it ends after the entry bar and by 15:15 of the entry's day. */
  lemma LabelBarCounts(t: Trigger, b: Bar)
    ensures Post([b], t.entryEnd, Cutoff(t)) == if t.entryEnd < b.end <= t.entryEnd / 86400 * 86400 + 54900 then [b] else []
  {
    assert [b][..0] == [];
  }

  /** The bar ends the scan: it touches the stop or the runner's level. */
  ghost predicate Ends(b: RBar, stop: real, c: Tunables) {
    b.worst <= stop || c.runnerR <= b.best
  }

  /** The scan looks at the first `n` bars: up to and including the first that ends it, or all. */
  ghost predicate Scanned(bars: seq<RBar>, stop: real, c: Tunables, n: nat) {
    && n <= |bars| && (forall j :: 0 <= j < n - 1 ==> !Ends(bars[j], stop, c))
    && (n < |bars| ==> n > 0 && Ends(bars[n - 1], stop, c))
  }

  /** The reported excursions are the furthest of the bars scanned, the ending one included. */
  lemma {:induction false} ExcursionsMean(bars: seq<RBar>, stop: real, c: Tunables, n: nat)
    requires Scanned(bars, stop, c, n)
    ensures var k := Count(bars, stop, c);
            k.favorable == Peak(bars[..n]) && k.adverse == Trough(bars[..n]) && (k.done <==> n > 0 && Ends(bars[n - 1], stop, c))
  {
    if bars != [] {
      var m := |bars| - 1;
      if n == |bars| {
        ExcursionsMean(bars[..m], stop, c, m);
        assert bars[..n] == bars && bars[..m][..m] == bars[..m];
      } else {
        ExcursionsMean(bars[..m], stop, c, n);
        assert bars[..m][..n] == bars[..n];
      }
    }
  }

  /** The labelled trade of a row is entered at the found price at the end of the found bar, on the row's side and with
      the row's stop; it has no risk exactly when that price is the stop. */
  lemma TradeOfRow(row: Row, bar: Bar, price: real)
    requires row.stop.Some?
    ensures var t := TradeOf(row, bar, price);
            && t.direction == row.direction && t.entryEnd == bar.end && t.entry == price && t.stop == row.stop.value
            && (Risk(t) <= 0.0 <==> price == row.stop.value)
  {
  }

  lemma InRTimesRisk(t: Trigger, price: real)
    requires Risk(t) > 0.0
    ensures InR(t, price) * Abs(t.entry - t.stop) == if t.direction == Call then price - t.entry else t.entry - price
  {
    Scale(if t.direction == Call then price - t.entry else t.entry - price, Risk(t), 0.0);
  }

  /** The session's result is that of the last bar's close, or of the entry bar's when no bar follows. */
  lemma SessionExitMeans(t: Trigger, entryClose: real, post: seq<Bar>, c: Tunables)
    requires Risk(t) > 0.0
    ensures var l, close := LabelOf(t, entryClose, post, c), if post == [] then entryClose else post[|post| - 1].close;
            && l.sessionExitR * Abs(t.entry - t.stop) == (if t.direction == Call then close - t.entry else t.entry - close)
            && l.bars == |post|
  {
    InRTimesRisk(t, LastClose(entryClose, post));
  }
}
