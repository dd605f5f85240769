/** What the batch candles of one instrument satisfy. */
module CandleProperties {
  import opened Common
  import opened CandleBuilder

  ghost predicate Increasing(a: seq<Quote>) {
    forall i, j :: 0 <= i < j < |a| ==> a[i].time < a[j].time
  }

  lemma {:induction false} AcceptedIncreases(qs: seq<Quote>)
    ensures Increasing(Accepted(qs))
    ensures forall q :: q in Accepted(qs) ==> q in qs
  {
    if qs != [] {
      AcceptedIncreases(qs[..|qs| - 1]);
    }
  }

  lemma FloorMultiple(x: int, k: int)
    requires k > 0
    ensures x / k * k <= x < x / k * k + k
  {
  }

  lemma MultiplesApart(p: int, q: int, k: int)
    requires k > 0 && p > q
    ensures p * k >= q * k + k
  {
    var d := p - q - 1;
    assert d * k >= 0;
    assert p * k == (q + 1 + d) * k == q * k + k + d * k;
  }

  lemma FloorMonotone(x: int, y: int, k: int)
    requires k > 0 && x <= y
    ensures x / k * k <= y / k * k
  {
    FloorMultiple(x, k);
    FloorMultiple(y, k);
    if x / k > y / k {
      MultiplesApart(x / k, y / k, k);
    }
  }

  lemma NonNegativeFloor(x: int, k: int)
    requires x >= 0 && k > 0
    ensures x / k * k >= 0
  {
    assert x / k >= 0;
  }

  lemma BarMinuteInHour(time: int, minutes: int)
    requires minutes > 0
    ensures 0 <= BarMinute(time, minutes) <= time % HOUR / MINUTE < BarMinute(time, minutes) + minutes
  {
    FloorMultiple(time % HOUR / MINUTE, minutes);
    NonNegativeFloor(time % HOUR / MINUTE, minutes);
  }

  /** A quote lies inside its bar. */
  lemma TimeInBar(time: int, minutes: int)
    requires minutes > 0
    ensures BarStart(time, minutes) <= time < BarStart(time, minutes) + minutes * MINUTE
    ensures BarStart(time, minutes) < time / HOUR * HOUR + HOUR
  {
    BarMinuteInHour(time, minutes);
    var m := BarMinute(time, minutes);
    var x := time % HOUR / MINUTE;
    assert x * MINUTE <= time % HOUR < (x + 1) * MINUTE;
    assert (x + 1) * MINUTE <= (m + minutes) * MINUTE;
  }

  lemma BarStartMonotone(t: int, u: int, minutes: int)
    requires minutes > 0 && t <= u
    ensures BarStart(t, minutes) <= BarStart(u, minutes)
  {
    BarMinuteInHour(t, minutes);
    BarMinuteInHour(u, minutes);
    TimeInBar(t, minutes);
    if t / HOUR == u / HOUR {
      FloorMonotone(t % HOUR / MINUTE, u % HOUR / MINUTE, minutes);
    }
  }

  ghost predicate InBar(g: Interval, time: int) {
    g.bar(time) <= time < g.bar(time) + g.minutes * MINUTE
  }

  ghost predicate InOrder(g: Interval, t: int, u: int) {
    t <= u ==> g.bar(t) <= g.bar(u)
  }

  /** Bars hold their times and follow each other. */
  ghost predicate Proper(g: Interval) {
    (forall t :: InBar(g, t)) && (forall t, u :: InOrder(g, t, u))
  }

  lemma GridIsProper(minutes: int)
    requires minutes > 0
    ensures Proper(Grid(minutes))
  {
    forall t ensures InBar(Grid(minutes), t) {
      TimeInBar(t, minutes);
    }
    forall t, u ensures InOrder(Grid(minutes), t, u) {
      if t <= u {
        BarStartMonotone(t, u, minutes);
      }
    }
  }

  // ---- each bar describes its run ----

  lemma {:induction false} RunIsMaximal(a: seq<Quote>, g: Interval)
    requires a != []
    ensures var l := RunStart(a, g);
            && (forall i :: l <= i < |a| ==> SameRun(a[i], a[|a| - 1], g))
            && (l > 0 ==> !SameRun(a[l - 1], a[l], g))
  {
    var n := |a| - 1;
    if n > 0 && SameRun(a[n - 1], a[n], g) {
      RunIsMaximal(a[..n], g);
      forall i | RunStart(a, g) <= i < n
        ensures SameRun(a[i], a[n], g)
      {
        assert SameRun(a[..n][i], a[..n][n - 1], g);
      }
    }
  }

  lemma {:induction false} HighIsHighest(run: seq<Quote>)
    requires run != []
    ensures forall i :: 0 <= i < |run| ==> run[i].price <= High(run)
    ensures exists i :: 0 <= i < |run| && run[i].price == High(run)
  {
    assert |run| == 1 ==> run[0].price == High(run);
    if |run| > 1 {
      var n := |run| - 1;
      HighIsHighest(run[..n]);
      var h :| 0 <= h < n && run[..n][h].price == High(run[..n]);
      assert run[h].price == High(run) || run[n].price == High(run);
      assert forall i :: 0 <= i < n ==> run[i] == run[..n][i];
    }
  }

  lemma {:induction false} LowIsLowest(run: seq<Quote>)
    requires run != []
    ensures forall i :: 0 <= i < |run| ==> Low(run) <= run[i].price
    ensures exists i :: 0 <= i < |run| && run[i].price == Low(run)
  {
    assert |run| == 1 ==> run[0].price == Low(run);
    if |run| > 1 {
      var n := |run| - 1;
      LowIsLowest(run[..n]);
      var w :| 0 <= w < n && run[..n][w].price == Low(run[..n]);
      assert run[w].price == Low(run) || run[n].price == Low(run);
      assert forall i :: 0 <= i < n ==> run[i] == run[..n][i];
    }
  }

  /** From quote r - 1 to quote r the source stays and the bar changes. */
  ghost predicate Crosses(a: seq<Quote>, r: int, g: Interval) {
    0 < r < |a| && a[r - 1].source == a[r].source && g.bar(a[r - 1].time) != g.bar(a[r].time)
  }

  /** The candle was built from a stretch l..r of the accepted quotes: one source, one bar, as long as it could be,
      followed by a quote of its source in another bar, with that stretch's first, highest, lowest and last price. */
  ghost predicate Describes(c: Candle, a: seq<Quote>, l: nat, r: nat, g: Interval)
  {
    && l < r < |a| && (l > 0 ==> !SameRun(a[l - 1], a[l], g)) && Crosses(a, r, g)
    && (forall i :: l <= i < r ==> a[i].source == c.source && c.start == g.bar(a[i].time))
    && (forall i :: l <= i < r ==> c.start <= a[i].time < c.end)
    && (forall i :: l <= i < r ==> c.low <= a[i].price <= c.high)
    && (exists i :: l <= i < r && a[i].price == c.high)
    && (exists i :: l <= i < r && a[i].price == c.low)
    && c.open == a[l].price && c.close == a[r - 1].price && c.openInterest == a[r - 1].openInterest
    && c.volume == VolumeFrom(a[..r], l) && c.end == c.start + g.minutes * MINUTE && c.minutes == g.minutes
  }

  lemma RunExtremes(a: seq<Quote>, l: nat)
    requires l < |a|
    ensures forall i :: l <= i < |a| ==> Low(a[l..]) <= a[i].price <= High(a[l..])
    ensures exists i :: l <= i < |a| && a[i].price == High(a[l..])
    ensures exists i :: l <= i < |a| && a[i].price == Low(a[l..])
  {
    HighIsHighest(a[l..]);
    LowIsLowest(a[l..]);
    forall i | l <= i < |a|
      ensures Low(a[l..]) <= a[i].price <= High(a[l..])
    {
      assert a[i] == a[l..][i - l];
    }
    var h :| 0 <= h < |a[l..]| && a[l..][h].price == High(a[l..]);
    assert a[l + h].price == High(a[l..]);
    var w :| 0 <= w < |a[l..]| && a[l..][w].price == Low(a[l..]);
    assert a[l + w].price == Low(a[l..]);
  }

  lemma RunBarDescribes(a: seq<Quote>, r: nat, instrument: string, g: Interval)
    requires Proper(g) && Crosses(a, r, g)
    ensures var before := a[..r];
            Describes(Completed(instrument, RunBar(before, g), g), a, RunStart(before, g), r, g)
  {
    var before := a[..r];
    var l := RunStart(before, g);
    RunIsMaximal(before, g);
    RunExtremes(before, l);
    forall i | l <= i < r
      ensures g.bar(a[r - 1].time) <= a[i].time < g.bar(a[r - 1].time) + g.minutes * MINUTE
    {
      assert before[i] == a[i];
      assert SameRun(before[i], before[r - 1], g);
      assert InBar(g, a[i].time);
    }
  }

  lemma DescribesLonger(c: Candle, a: seq<Quote>, n: nat, l: nat, r: nat, g: Interval)
    requires n <= |a| && Describes(c, a[..n], l, r, g)
    ensures Describes(c, a, l, r, g)
  {
    assert a[..n][..r] == a[..r];
    var h :| l <= h < r && a[..n][h].price == c.high;
    var w :| l <= w < r && a[..n][w].price == c.low;
    assert a[h].price == c.high && a[w].price == c.low;
  }

  /** Every emitted candle describes a stretch of the instrument's accepted quotes. */
  lemma {:induction false} EmittedDescribe(a: seq<Quote>, g: Interval, k: nat) returns (l: nat, r: nat)
    requires Proper(g) && k < |Emitted(a, g)|
    ensures Describes(Emitted(a, g)[k], a, l, r, g)
  {
    var n := |a| - 1;
    if k < |Emitted(a[..n], g)| {
      l, r := EmittedDescribe(a[..n], g, k);
      DescribesLonger(Emitted(a, g)[k], a, n, l, r, g);
    } else {
      RunBarDescribes(a, n, a[n].instrument, g);
      l, r := RunStart(a[..n], g), n;
    }
  }

  ghost function Crossings(a: seq<Quote>, g: Interval): set<int> {
    set r | 0 < r < |a| && Crosses(a, r, g)
  }

  lemma CrossingsGrow(a: seq<Quote>, g: Interval)
    requires |a| >= 2
    ensures var n := |a| - 1; Crossings(a, g) == Crossings(a[..n], g) + if Crosses(a, n, g) then {n} else {}
  {
    var n := |a| - 1;
    assert forall r :: 0 < r < n ==> (Crosses(a[..n], r, g) <==> Crosses(a, r, g));
  }

  /** There is one candle for each crossing: none is missed, and none is made when the source changes. */
  lemma {:induction false} OneCandlePerCrossing(a: seq<Quote>, g: Interval)
    ensures |Emitted(a, g)| == |Crossings(a, g)|
  {
    if |a| < 2 {
      assert Crossings(a, g) == {};
    } else {
      OneCandlePerCrossing(a[..|a| - 1], g);
      CrossingsGrow(a, g);
    }
  }

  // ---- which quotes count, and for how much volume ----

  lemma {:induction false} LastAcceptedIsLatest(qs: seq<Quote>)
    ensures qs != [] <==> Accepted(qs) != []
    ensures forall i :: 0 <= i < |qs| ==> qs[i].time <= Accepted(qs)[|Accepted(qs)| - 1].time
    ensures qs != [] ==> exists i :: 0 <= i < |qs| && qs[i] == Accepted(qs)[|Accepted(qs)| - 1]
  {
    if qs != [] {
      var n := |qs| - 1;
      LastAcceptedIsLatest(qs[..n]);
      assert forall i :: 0 <= i < n ==> qs[i] == qs[..n][i];
      assert qs[n] == qs[|qs| - 1];
    }
  }

  /** A quote is accepted exactly when it is newer than every earlier one of its instrument. */
  lemma AcceptedExactly(qs: seq<Quote>, q: Quote)
    ensures Accepted(qs + [q])
         == if forall i :: 0 <= i < |qs| ==> qs[i].time < q.time then Accepted(qs) + [q] else Accepted(qs)
  {
    AcceptedAppend(qs, q);
    LastAcceptedIsLatest(qs);
  }

  /** A quote adds the increase of the cumulative volume since the one before it, if that came from the same source
      on the same IST day (5 h 30 min ahead of UTC), and nothing if it did not, or if the volume fell. */
  lemma VolumeCounts(p: Quote, q: Quote)
    ensures Delta(None, q) == 0
    ensures Delta(Some(p), q)
         == if p.source == q.source && (p.time + 19_800_000_000) / 86_400_000_000 == (q.time + 19_800_000_000) / 86_400_000_000
               && p.volume <= q.volume
            then q.volume - p.volume else 0
  {
  }

  // ---- order and volume ----

  /** The bars start strictly one after the other, and all before the given start. */
  ghost predicate OrderedBefore(e: seq<Candle>, start: int) {
    && (forall i, j :: 0 <= i < j < |e| ==> e[i].start < e[j].start)
    && (forall i :: 0 <= i < |e| ==> e[i].start < start)
  }

  lemma OrderedAppend(e: seq<Candle>, c: Candle, start: int)
    requires OrderedBefore(e, c.start) && c.start <= start
    ensures OrderedBefore(e, start)
    ensures c.start < start ==> OrderedBefore(e + [c], start)
  {
  }

  /** Emitted bars are strictly ordered, and all precede the bar under construction. */
  lemma {:induction false} EmittedAreOrdered(a: seq<Quote>, g: Interval)
    requires Proper(g) && Increasing(a) && a != []
    ensures OrderedBefore(Emitted(a, g), g.bar(a[|a| - 1].time))
  {
    if |a| >= 2 {
      var n := |a| - 1;
      EmittedAreOrdered(a[..n], g);
      assert InOrder(g, a[n - 1].time, a[n].time);
      OrderedAppend(Emitted(a[..n], g), Completed(a[n].instrument, RunBar(a[..n], g), g), g.bar(a[n].time));
    }
  }

  function TotalVolume(cs: seq<Candle>): int {
    if cs == [] then 0 else TotalVolume(cs[..|cs| - 1]) + cs[|cs| - 1].volume
  }

  ghost predicate OneSource(a: seq<Quote>) {
    forall i, j :: 0 <= i < j < |a| ==> a[i].source == a[j].source
  }

  lemma TotalVolumeAppend(cs: seq<Candle>, c: Candle)
    ensures TotalVolume(cs + [c]) == TotalVolume(cs) + c.volume
  {
    assert (cs + [c])[..|cs|] == cs;
  }

  /** With one source no volume is lost: emitted plus active volume is the sum of all changes. */
  lemma {:induction false} VolumeIsPartitioned(a: seq<Quote>, g: Interval)
    requires a != [] && OneSource(a)
    ensures TotalVolume(Emitted(a, g)) + RunBar(a, g).volume == VolumeFrom(a, 0)
  {
    var n := |a| - 1;
    if n > 0 {
      var before := a[..n];
      VolumeIsPartitioned(before, g);
      assert a[n - 1].source == a[n].source;
      if SameRun(a[n - 1], a[n], g) {
        assert Emitted(a, g) == Emitted(before, g);
        assert RunStart(a, g) == RunStart(before, g);
      } else {
        TotalVolumeAppend(Emitted(before, g), Completed(a[n].instrument, RunBar(before, g), g));
        assert VolumeFrom(a[..n], n) == 0;
      }
    } else {
      assert a[..0] == [];
    }
  }

  lemma {:induction false} DeltasTelescope(a: seq<Quote>)
    requires a != [] && OneSource(a)
    requires forall i, j :: 0 <= i < j < |a| ==> IstDate(a[i].time) == IstDate(a[j].time) && a[i].volume <= a[j].volume
    ensures VolumeFrom(a, 0) == a[|a| - 1].volume - a[0].volume
  {
    var n := |a| - 1;
    if n > 0 {
      DeltasTelescope(a[..n]);
      assert a[n - 1].source == a[n].source;
    } else {
      assert a[..0] == [];
    }
  }

  /** And when the feed stays on one day and never decreases, that sum is the last minus the first
      cumulative volume. */
  lemma {:induction false} VolumeTelescopes(a: seq<Quote>, g: Interval)
    requires a != [] && OneSource(a)
    requires forall i, j :: 0 <= i < j < |a| ==> IstDate(a[i].time) == IstDate(a[j].time) && a[i].volume <= a[j].volume
    ensures TotalVolume(Emitted(a, g)) + RunBar(a, g).volume == a[|a| - 1].volume - a[0].volume
  {
    VolumeIsPartitioned(a, g);
    DeltasTelescope(a);
  }
}
