/** Online/offline agreement, mirror symmetry and bounds of the Strategy C lifecycle. */
module LifecycleProperties {
  import opened Common
  import opened Lifecycle

  // ---- online and offline agree ----

  ghost predicate EndsSorted(bars: seq<Bar>) {
    forall i, j :: 0 <= i < j < |bars| ==> bars[i].end <= bars[j].end
  }

  lemma {:induction false} PostAppend(a: seq<Bar>, b: seq<Bar>, from: int, horizon: int)
    ensures Post(a + b, from, horizon) == Post(a, from, horizon) + Post(b, from, horizon)
  {
    if b == [] {
      assert a + b == a;
    } else {
      var n := |b| - 1;
      PostAppend(a, b[..n], from, horizon);
      assert (a + b)[..|a| + n] == a + b[..n];
      assert (a + b)[|a| + n] == b[n];
      var kept := if b[n].start >= from && b[n].end <= horizon then [b[n]] else [];
      assert Post(a + b, from, horizon) == Post(a, from, horizon) + Post(b[..n], from, horizon) + kept;
      assert Post(b, from, horizon) == Post(b[..n], from, horizon) + kept;
    }
  }

  lemma {:induction false} PostOfLater(bars: seq<Bar>, from: int, horizon: int)
    requires forall i :: 0 <= i < |bars| ==> bars[i].end > horizon
    ensures Post(bars, from, horizon) == []
  {
    if bars != [] {
      PostOfLater(bars[..|bars| - 1], from, horizon);
    }
  }

  lemma {:induction false} SameWithin(bars: seq<Bar>, from: int, h: int, h': int)
    requires h <= h' && forall i :: 0 <= i < |bars| ==> bars[i].end <= h
    ensures Post(bars, from, h) == Post(bars, from, h')
  {
    if bars != [] {
      SameWithin(bars[..|bars| - 1], from, h, h');
    }
  }

  /** A wider horizon keeps the narrower one's bars as a prefix. */
  lemma {:induction false} WiderHorizon(bars: seq<Bar>, from: int, h: int, h': int)
    requires EndsSorted(bars) && h <= h'
    ensures Post(bars, from, h) <= Post(bars, from, h')
  {
    if bars != [] {
      var n := |bars| - 1;
      var (pre, last) := (bars[..n], bars[n]);
      WiderHorizon(pre, from, h, h');
      if last.end <= h {
        SameWithin(pre, from, h, h');
      }
    }
  }

  lemma {:induction false} ScanAppend(p: Progress, a: seq<RBar>, b: seq<RBar>, c: Config)
    ensures Scan(p, a + b, c) == Scan(Scan(p, a, c), b, c)
  {
    if b == [] {
      assert a + b == a;
    } else {
      var n := |b| - 1;
      ScanAppend(p, a, b[..n], c);
      assert (a + b)[..|a| + n] == a + b[..n];
    }
  }

  /** The bars an earlier as-of saw are a prefix of those a later one sees. */
  lemma LaterSeesMore(t: Trigger, bars: seq<Bar>, later: seq<Bar>, asOf: int, asOf': int)
    requires EndsSorted(bars + later) && asOf <= asOf'
    requires forall i :: 0 <= i < |later| ==> later[i].end > asOf
    ensures Post(bars, t.entryEnd, Horizon(t, asOf)) <= Post(bars + later, t.entryEnd, Horizon(t, asOf'))
    ensures asOf >= Cutoff(t) ==> Post(bars, t.entryEnd, Horizon(t, asOf)) == Post(bars + later, t.entryEnd, Horizon(t, asOf'))
  {
    var h, h' := Horizon(t, asOf), Horizon(t, asOf');
    PostAppend(bars, later, t.entryEnd, h);
    PostOfLater(later, t.entryEnd, h);
    WiderHorizon(bars + later, t.entryEnd, h, h');
  }

  lemma BarsInRPrefix(t: Trigger, a: seq<Bar>, b: seq<Bar>)
    requires Risk(t) > 0.0 && a <= b
    ensures BarsInR(t, b) == BarsInR(t, a) + BarsInR(t, b[|a|..])
  {
  }

  /** What was resolved stays resolved: every later as-of, over the stream extended with later
      bars, gives the identical exit time, price, reason, R, MFE and MAE. */
  lemma ResolvedIsFinal(t: Trigger, bars: seq<Bar>, later: seq<Bar>, c: Config, asOf: int, asOf': int)
    requires EndsSorted(bars + later) && asOf <= asOf'
    requires forall i :: 0 <= i < |later| ==> later[i].end > asOf
    requires var r := LifecycleAt(t, bars, c, asOf); r.Ok? && r.value.Resolved?
    ensures LifecycleAt(t, bars + later, c, asOf') == LifecycleAt(t, bars, c, asOf)
  {
    var post := Post(bars, t.entryEnd, Horizon(t, asOf));
    var post' := Post(bars + later, t.entryEnd, Horizon(t, asOf'));
    LaterSeesMore(t, bars, later, asOf, asOf');
    var p := Scan(Entered(t), BarsInR(t, post), c);
    if p.Exited? {
      BarsInRPrefix(t, post, post');
      ExitIsFinal(Entered(t), BarsInR(t, post), BarsInR(t, post'[|post|..]), c);
    }
  }

  /** What was open is the exact state the longer run passes through: continuing the fold from it
      over the bars seen since gives the later result. */
  lemma OpenIsResumable(t: Trigger, bars: seq<Bar>, later: seq<Bar>, c: Config, asOf: int, asOf': int)
    requires EndsSorted(bars + later) && asOf <= asOf'
    requires forall i :: 0 <= i < |later| ==> later[i].end > asOf
    requires var r := LifecycleAt(t, bars, c, asOf); r.Ok? && r.value.Open?
    ensures var post := Post(bars, t.entryEnd, Horizon(t, asOf));
            var post' := Post(bars + later, t.entryEnd, Horizon(t, asOf'));
            var state := Scan(Entered(t), BarsInR(t, post), c);
            && post <= post' && state.Running?
            && LifecycleAt(t, bars, c, asOf).value == Decoded(t, post, state, false)
            && LifecycleAt(t, bars + later, c, asOf')
               == Ok(Decoded(t, post', Scan(state, BarsInR(t, post'[|post|..]), c), asOf' >= Cutoff(t)))
  {
    var post := Post(bars, t.entryEnd, Horizon(t, asOf));
    var post' := Post(bars + later, t.entryEnd, Horizon(t, asOf'));
    LaterSeesMore(t, bars, later, asOf, asOf');
    BarsInRPrefix(t, post, post');
    ScanAppend(Entered(t), BarsInR(t, post), BarsInR(t, post'[|post|..]), c);
  }

  // ---- mirror symmetry ----

  function Opposite(d: Direction): Direction {
    if d == Call then Put else Call
  }

  function Reflect(price: real, about: real): real {
    2.0 * about - price
  }

  function MirrorTrigger(t: Trigger): Trigger {
    t.(direction := Opposite(t.direction), stop := Reflect(t.stop, t.entry))
  }

  function MirrorBar(b: Bar, about: real): Bar {
    Bar(b.start, b.end, Reflect(b.open, about), Reflect(b.low, about), Reflect(b.high, about), Reflect(b.close, about))
  }

  function MirrorBars(bars: seq<Bar>, about: real): (ms: seq<Bar>)
    ensures |ms| == |bars| && forall i :: 0 <= i < |bars| ==> ms[i] == MirrorBar(bars[i], about)
  {
    seq(|bars|, i requires 0 <= i < |bars| => MirrorBar(bars[i], about))
  }

  function MirrorLifecycle(l: Lifecycle, about: real): Lifecycle {
    match l
    case Open(stop, r, mfe, mae) => Open(Reflect(stop, about), r, mfe, mae)
    case Resolved(time, price, reason, r, stop, mfe, mae) =>
      Resolved(time, Reflect(price, about), reason, r, Reflect(stop, about), mfe, mae)
  }

  lemma {:induction false} PostOfMirror(bars: seq<Bar>, about: real, from: int, horizon: int)
    ensures Post(MirrorBars(bars, about), from, horizon) == MirrorBars(Post(bars, from, horizon), about)
  {
    if bars != [] {
      var n := |bars| - 1;
      PostOfMirror(bars[..n], about, from, horizon);
      assert MirrorBars(bars, about)[..n] == MirrorBars(bars[..n], about);
    }
  }

  lemma MirrorInR(t: Trigger, price: real)
    requires Risk(t) > 0.0
    ensures Risk(MirrorTrigger(t)) == Risk(t)
    ensures InR(MirrorTrigger(t), Reflect(price, t.entry)) == InR(t, price)
  {
    var d := if t.direction == Call then price - t.entry else t.entry - price;
    var m := MirrorTrigger(t);
    assert d == if m.direction == Call then Reflect(price, t.entry) - m.entry else m.entry - Reflect(price, t.entry);
  }

  lemma MirrorBarsInR(t: Trigger, bars: seq<Bar>)
    requires Risk(t) > 0.0
    ensures Risk(MirrorTrigger(t)) == Risk(t)
    ensures BarsInR(MirrorTrigger(t), MirrorBars(bars, t.entry)) == BarsInR(t, bars)
  {
    MirrorInR(t, t.entry);
    forall i | 0 <= i < |bars|
      ensures BarInR(MirrorTrigger(t), MirrorBar(bars[i], t.entry)) == BarInR(t, bars[i])
    {
      MirrorInR(t, bars[i].high);
      MirrorInR(t, bars[i].low);
      MirrorInR(t, bars[i].close);
    }
  }

  lemma MirrorPriceAt(t: Trigger, r: real)
    ensures PriceAt(MirrorTrigger(t), r) == Reflect(PriceAt(t, r), t.entry)
  {
    assert Risk(MirrorTrigger(t)) == Risk(t);
  }

  lemma MirrorDecoded(t: Trigger, post: seq<Bar>, p: Progress, pastCutoff: bool)
    ensures Decoded(MirrorTrigger(t), MirrorBars(post, t.entry), p, pastCutoff)
         == MirrorLifecycle(Decoded(t, post, p, pastCutoff), t.entry)
  {
    MirrorPriceAt(t, p.track.stop);
    MirrorPriceAt(t, p.track.last);
    if p.Exited? {
      MirrorPriceAt(t, p.r);
    }
  }

  /** Reflecting the bars about the entry price and swapping CALL for PUT gives the reflected
      lifecycle: same status, reason, times, R, MFE and MAE, with prices reflected. */
  lemma MirrorSymmetry(t: Trigger, bars: seq<Bar>, c: Config, asOf: int)
    ensures var r := LifecycleAt(t, bars, c, asOf);
            LifecycleAt(MirrorTrigger(t), MirrorBars(bars, t.entry), c, asOf)
            == if r.Ok? then Ok(MirrorLifecycle(r.value, t.entry)) else r
  {
    var m := MirrorTrigger(t);
    if Risk(t) > 0.0 {
      var post := Post(bars, t.entryEnd, Horizon(t, asOf));
      PostOfMirror(bars, t.entry, t.entryEnd, Horizon(t, asOf));
      MirrorBarsInR(t, post);
      MirrorInR(t, t.stop);
      MirrorDecoded(t, post, Scan(Entered(t), BarsInR(t, post), c), asOf >= Cutoff(t));
    }
  }

  // ---- bounds and the closed form of the stop ----

  ghost predicate ProperConfig(c: Config) {
    0.0 < c.hardTargetR && 0.0 <= c.breakevenArmR && 0.0 <= c.trailArmR && 0.0 <= c.trailOffsetR
  }

  /** The initial stop is on the protective side of entry. */
  ghost predicate Protective(t: Trigger) {
    if t.direction == Call then t.stop < t.entry else t.entry < t.stop
  }

  ghost predicate ProperBar(b: Bar) {
    b.start <= b.end && b.low <= b.open <= b.high && b.low <= b.close <= b.high
  }

  ghost predicate ProperBars(bars: seq<Bar>) {
    forall i :: 0 <= i < |bars| ==> ProperBar(bars[i])
  }

  ghost predicate ProperRBars(bars: seq<RBar>) {
    forall i :: 0 <= i < |bars| ==> bars[i].worst <= bars[i].close <= bars[i].best
  }

  /** The stop as a function of the best excursion alone. */
  function ClosedFormStop(best: real, c: Config): real {
    MaxReal(-1.0, MaxReal(if best >= c.breakevenArmR then 0.0 else -1.0,
                          if best >= c.trailArmR then best - c.trailOffsetR else -1.0))
  }

  /** The furthest the bars went in favour of the trade, and against it. */
  function Peak(bars: seq<RBar>): real {
    if bars == [] then 0.0 else MaxReal(Peak(bars[..|bars| - 1]), bars[|bars| - 1].best)
  }

  function Trough(bars: seq<RBar>): real {
    if bars == [] then 0.0 else MaxReal(Trough(bars[..|bars| - 1]), -bars[|bars| - 1].worst)
  }

  /** A trade still running after the bars seen: everything is a function of their extremes. */
  ghost predicate Sound(k: Track, bars: seq<RBar>, c: Config) {
    && k.mfe == k.best == Peak(bars) && k.mae == Trough(bars)
    && k.stop == (if bars == [] then -1.0 else ClosedFormStop(Peak(bars), c))
    && 0.0 <= k.best < c.hardTargetR && 0.0 <= k.mae
    && -1.0 <= k.stop <= k.best
    && -k.mae <= k.last <= k.mfe && -1.0 <= k.last
  }

  lemma TighteningKeepsClosedForm(stop: real, best: real, best': real, c: Config)
    requires ProperConfig(c) && 0.0 <= best <= best'
    requires stop == -1.0 || stop == ClosedFormStop(best, c)
    ensures Tightened(stop, best', c) == ClosedFormStop(best', c)
    ensures stop <= Tightened(stop, best', c) && -1.0 <= Tightened(stop, best', c) <= best'
  {
  }

  ghost predicate Within(r: real, mfe: real, mae: real, c: Config) {
    -mae <= r <= mfe && -1.0 <= r <= c.hardTargetR
  }

  lemma InitialStopIsMinusOne(t: Trigger)
    requires Risk(t) > 0.0 && Protective(t)
    ensures InR(t, t.stop) == -1.0
  {
    PriceVersusR(t, t.stop, -1.0);
  }

  /** After any bars the trade is either running in a sound state or has exited within bounds. */
  lemma {:induction false} ScanIsSound(t: Trigger, bars: seq<RBar>, c: Config)
    requires Risk(t) > 0.0 && Protective(t) && ProperConfig(c) && ProperRBars(bars)
    ensures var p := Scan(Entered(t), bars, c);
            if p.Running? then Sound(p.track, bars, c) else Within(p.r, p.track.mfe, p.track.mae, c)
  {
    if bars == [] {
      InitialStopIsMinusOne(t);
    } else {
      var n := |bars| - 1;
      var p, b := Scan(Entered(t), bars[..n], c), bars[n];
      ScanIsSound(t, bars[..n], c);
      if p.Running? {
        TighteningKeepsClosedForm(p.track.stop, p.track.best, MaxReal(p.track.best, b.best), c);
      }
    }
  }

  lemma BarsAreProper(t: Trigger, bars: seq<Bar>)
    requires Risk(t) > 0.0 && ProperBars(bars)
    ensures ProperRBars(BarsInR(t, bars))
  {
    forall i | 0 <= i < |bars|
      ensures var r := BarInR(t, bars[i]); r.worst <= r.close <= r.best
    {
      var b := bars[i];
      PriceVersusR(t, b.high, InR(t, b.close));
      PriceVersusR(t, b.low, InR(t, b.close));
      PriceVersusR(t, b.close, InR(t, b.close));
    }
  }

  lemma {:induction false} PostKeepsProper(bars: seq<Bar>, from: int, horizon: int)
    requires ProperBars(bars)
    ensures ProperBars(Post(bars, from, horizon))
    ensures forall i :: 0 <= i < |Post(bars, from, horizon)| ==> from <= Post(bars, from, horizon)[i].end <= horizon
  {
    if bars != [] {
      PostKeepsProper(bars[..|bars| - 1], from, horizon);
    }
  }

  /** Realized and current R lie between minus the MAE and the MFE, and between -1 and the hard
      target, for every bar sequence and either direction. */
  lemma LifecycleWithinBounds(t: Trigger, bars: seq<Bar>, c: Config, asOf: int)
    requires Risk(t) > 0.0 && Protective(t) && ProperConfig(c) && ProperBars(bars)
    ensures var l := LifecycleAt(t, bars, c, asOf).value; Within(l.R(), l.mfeR, l.maeR, c)
  {
    var post := Post(bars, t.entryEnd, Horizon(t, asOf));
    PostKeepsProper(bars, t.entryEnd, Horizon(t, asOf));
    BarsAreProper(t, post);
    ScanIsSound(t, BarsInR(t, post), c);
  }

  /** While the trade runs, its stop is the closed form of the best excursion, and it only ever
      moves in the protective direction. */
  lemma {:induction false} StopOnlyTightens(t: Trigger, bars: seq<RBar>, c: Config, i: nat)
    requires Risk(t) > 0.0 && Protective(t) && ProperConfig(c) && ProperRBars(bars)
    requires i <= |bars| && Scan(Entered(t), bars, c).Running?
    ensures var early := Scan(Entered(t), bars[..i], c);
            && early.Running? && early.track.stop <= Scan(Entered(t), bars, c).track.stop
            && (i > 0 ==> early.track.stop == ClosedFormStop(Peak(bars[..i]), c))
    decreases |bars|
  {
    if i == |bars| {
      assert bars[..i] == bars;
      ScanIsSound(t, bars, c);
    } else {
      var n := |bars| - 1;
      var p := Scan(Entered(t), bars[..n], c);
      ScanIsSound(t, bars[..n], c);
      TighteningKeepsClosedForm(p.track.stop, p.track.best, MaxReal(p.track.best, bars[n].best), c);
      StopOnlyTightens(t, bars[..n], c, i);
      assert bars[..n][..i] == bars[..i];
    }
  }

  lemma {:induction false} ScanExitTime(p: Progress, bars: seq<RBar>, c: Config)
    requires p.Running?
    ensures Scan(p, bars, c).Exited? ==> exists i :: 0 <= i < |bars| && bars[i].end == Scan(p, bars, c).time
  {
    if bars != [] {
      var n := |bars| - 1;
      ScanExitTime(p, bars[..n], c);
      assert bars[n] == bars[|bars| - 1];
    }
  }

  /** An exit never precedes the entry or follows the horizon. */
  lemma ExitTimeInRange(t: Trigger, bars: seq<Bar>, c: Config, asOf: int)
    requires Risk(t) > 0.0 && ProperBars(bars)
    requires LifecycleAt(t, bars, c, asOf).value.Resolved?
    ensures t.entryEnd <= LifecycleAt(t, bars, c, asOf).value.exitTime
    ensures LifecycleAt(t, bars, c, asOf).value.exitTime <= Max(t.entryEnd, Horizon(t, asOf))
  {
    var post := Post(bars, t.entryEnd, Horizon(t, asOf));
    PostKeepsProper(bars, t.entryEnd, Horizon(t, asOf));
    ScanExitTime(Entered(t), BarsInR(t, post), c);
  }

  // ---- which bar decides, and how ----

  /** Where the stop stands when bar `i` comes. */
  ghost function Level(bars: seq<RBar>, i: nat, c: Config): real
    requires i <= |bars|
  {
    if i == 0 then -1.0 else ClosedFormStop(Peak(bars[..i]), c)
  }

  ghost predicate TouchesStop(bars: seq<RBar>, i: nat, c: Config)
    requires i < |bars|
  {
    bars[i].worst <= Level(bars, i, c)
  }

  ghost predicate Decides(bars: seq<RBar>, i: nat, c: Config)
    requires i < |bars|
  {
    TouchesStop(bars, i, c) || bars[i].best >= c.hardTargetR
  }

  /** Bar `i` is the first to touch the stop or the target. */
  ghost predicate DecidesFirst(bars: seq<RBar>, i: nat, c: Config) {
    i < |bars| && Decides(bars, i, c) && forall j :: 0 <= j < i ==> !Decides(bars, j, c)
  }

  lemma DecidesInPrefix(bars: seq<RBar>, n: nat, c: Config)
    requires n <= |bars|
    ensures forall i :: 0 <= i < n ==> (TouchesStop(bars[..n], i, c) <==> TouchesStop(bars, i, c))
    ensures forall i :: 0 <= i < n ==> (Decides(bars[..n], i, c) <==> Decides(bars, i, c))
  {
    assert forall i :: 0 <= i < n ==> bars[..n][..i] == bars[..i];
  }

  ghost predicate NoneDecides(bars: seq<RBar>, c: Config) {
    forall i :: 0 <= i < |bars| ==> !Decides(bars, i, c)
  }

  /** How a trade decided by bar `i` ends: at the stop if the bar touched it, whether or not it also touched the
      target, else at the target. */
  ghost predicate EndsAt(p: Progress, bars: seq<RBar>, i: nat, c: Config)
    requires i < |bars|
  {
    && p.Exited? && p.time == bars[i].end
    && (if TouchesStop(bars, i, c) then p.reason == StopOrTrail && p.r == Level(bars, i, c)
        else p.reason == HardTarget && p.r == c.hardTargetR)
    && p.track.stop == Level(bars, i, c)
    && p.track.mfe == Peak(bars[..i + 1]) && p.track.mae == Trough(bars[..i + 1])
  }

  ghost predicate StillRuns(p: Progress, bars: seq<RBar>, c: Config) {
    && p.Running? && p.track.stop == Level(bars, |bars|, c)
    && p.track.last == (if bars == [] then 0.0 else bars[|bars| - 1].close)
    && p.track.mfe == Peak(bars) && p.track.mae == Trough(bars)
  }

  /** One more bar either decides a running trade or leaves it running. */
  lemma NextBar(t: Trigger, bars: seq<RBar>, b: RBar, c: Config)
    requires Risk(t) > 0.0 && Protective(t) && ProperConfig(c) && ProperRBars(bars + [b])
    requires StillRuns(Scan(Entered(t), bars, c), bars, c)
    ensures var p := Scan(Entered(t), bars + [b], c);
            if Decides(bars + [b], |bars|, c) then EndsAt(p, bars + [b], |bars|, c) else StillRuns(p, bars + [b], c)
  {
    var all := bars + [b];
    assert all[..|bars|] == bars && all[|bars|] == b && all[..|bars| + 1] == all;
    assert forall i :: 0 <= i < |bars| ==> bars[i] == all[i];
    ScanIsSound(t, bars, c);
    ScanIsSound(t, all, c);
  }

  lemma DecidedStays(p: Progress, bars: seq<RBar>, n: nat, i: nat, c: Config)
    requires n <= |bars| && DecidesFirst(bars[..n], i, c) && EndsAt(p, bars[..n], i, c)
    ensures DecidesFirst(bars, i, c) && EndsAt(p, bars, i, c)
  {
    DecidesInPrefix(bars, n, c);
    assert bars[..n][..i + 1] == bars[..i + 1] && bars[..n][..i] == bars[..i];
  }

  /** The fold ends exactly with the first bar that touches the stop as it then stands, or the target. */
  lemma {:induction false} FirstTouchDecides(t: Trigger, bars: seq<RBar>, c: Config)
    requires Risk(t) > 0.0 && Protective(t) && ProperConfig(c) && ProperRBars(bars)
    ensures var p := Scan(Entered(t), bars, c);
            if NoneDecides(bars, c) then StillRuns(p, bars, c)
            else exists i: nat :: DecidesFirst(bars, i, c) && EndsAt(p, bars, i, c)
  {
    if bars == [] {
      InitialStopIsMinusOne(t);
    } else {
      var n := |bars| - 1;
      var before := bars[..n];
      assert bars == before + [bars[n]];
      FirstTouchDecides(t, before, c);
      if NoneDecides(before, c) {
        DecidesInPrefix(bars, n, c);
        NextBar(t, before, bars[n], c);
        assert Decides(bars, n, c) ==> DecidesFirst(bars, n, c);
      } else {
        var i: nat :| DecidesFirst(before, i, c) && EndsAt(Scan(Entered(t), before, c), before, i, c);
        DecidedStays(Scan(Entered(t), before, c), bars, n, i, c);
      }
    }
  }

  /** A bar counts exactly when it starts no earlier than the entry bar ended and ends by the as-of time and by
      15:15 of the entry's day; Post keeps such bars, in their order (PostAppend). */
  lemma BarCounts(t: Trigger, b: Bar, asOf: int)
    ensures Post([b], t.entryEnd, Horizon(t, asOf))
         == if b.start >= t.entryEnd && b.end <= asOf && b.end <= t.entryEnd / 86400 * 86400 + 54900 then [b] else []
  {
    assert [b][..0] == [];
  }

  /** The exit of a trade that bar `i` decides. */
  ghost predicate Exits(l: Lifecycle, t: Trigger, post: seq<Bar>, i: nat, c: Config)
    requires Risk(t) > 0.0 && i < |post|
  {
    var bars := BarsInR(t, post);
    && l.Resolved? && l.exitTime == post[i].end
    && (if TouchesStop(bars, i, c) then l.reason == StopOrTrail && l.realizedR == Level(bars, i, c)
        else l.reason == HardTarget && l.realizedR == c.hardTargetR)
    && l.exitPrice == PriceAt(t, l.realizedR) && l.currentStop == PriceAt(t, Level(bars, i, c))
    && l.mfeR == Peak(bars[..i + 1]) && l.maeR == Trough(bars[..i + 1])
  }

  /** The whole lifecycle, without the fold: the first bar that touches the stop as it then stands or the target
      resolves it, at the stop if it touched both; else 15:15 does, at the last close; else it is open. */
  lemma LifecycleDecidedBy(t: Trigger, bars: seq<Bar>, c: Config, asOf: int)
    requires Risk(t) > 0.0 && Protective(t) && ProperConfig(c) && ProperBars(bars)
    ensures var l, post := LifecycleAt(t, bars, c, asOf).value, Post(bars, t.entryEnd, Horizon(t, asOf));
            var rs, n := BarsInR(t, post), |post|;
            var price := if n == 0 then t.entry else post[n - 1].close;
            if !NoneDecides(rs, c) then exists i: nat :: DecidesFirst(rs, i, c) && Exits(l, t, post, i, c)
            else if asOf >= t.entryEnd / 86400 * 86400 + 54900 then
              l == Resolved(if n == 0 then t.entryEnd else post[n - 1].end, price, ForcedExit, InR(t, price),
                            PriceAt(t, Level(rs, n, c)), Peak(rs), Trough(rs))
            else l == Open(PriceAt(t, Level(rs, n, c)), InR(t, price), Peak(rs), Trough(rs))
  {
    var post := Post(bars, t.entryEnd, Horizon(t, asOf));
    var rs := BarsInR(t, post);
    PostKeepsProper(bars, t.entryEnd, Horizon(t, asOf));
    BarsAreProper(t, post);
    FirstTouchDecides(t, rs, c);
    if NoneDecides(rs, c) {
      EntryIsZero(t);
      if post != [] {
        PriceVersusR(t, post[|post| - 1].close, 0.0);
      }
    } else {
      var i: nat :| DecidesFirst(rs, i, c) && EndsAt(Scan(Entered(t), rs, c), rs, i, c);
      assert Exits(LifecycleAt(t, bars, c, asOf).value, t, post, i, c);
    }
  }
}
