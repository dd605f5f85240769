/** Building five-minute candles and resampling them gives the fifteen-minute candles. */
module ResampleCommutes {
  import opened Common
  import opened CandleBuilder
  import opened CandleProperties
  import opened Resample

  lemma JoinedPush(cs: seq<Candle>, c: Candle, b: int)
    requires cs != []
    ensures var j := Joined(cs, b);
            Joined(cs + [c], b) == Active(b, j.open, MaxReal(j.high, c.high), MinReal(j.low, c.low), c.close,
                                          j.volume + c.volume, c.openInterest, c.source)
  {
    assert (cs + [c])[..|cs|] == cs;
  }

  lemma JoinedOne(c: Candle, b: int)
    ensures Joined([c], b) == Active(b, c.open, c.high, c.low, c.close, c.volume, c.openInterest, c.source)
  {
    assert [c][..0] == [] && TotalVolume([c]) == TotalVolume([c][..0]) + c.volume;
  }

  /** The bar after one more price. */
  function Extended(a: Active, q: Quote, volume: int): Active {
    a.(high := MaxReal(a.high, q.price), low := MinReal(a.low, q.price), close := q.price,
       volume := a.volume + volume, openInterest := q.openInterest)
  }

  /** Extending the last five-minute bar extends what the bars amount to. */
  lemma JoinedExtends(cs: seq<Candle>, a: Active, q: Quote, volume: int, b: int, i: string, i': string, five: Interval)
    ensures Joined(cs + [Completed(i', Extended(a, q, volume), five)], b)
         == Extended(Joined(cs + [Completed(i, a, five)], b), q, volume)
  {
    if cs == [] {
      JoinedOne(Completed(i, a, five), b);
      JoinedOne(Completed(i', Extended(a, q, volume), five), b);
      assert cs + [Completed(i, a, five)] == [Completed(i, a, five)];
      assert cs + [Completed(i', Extended(a, q, volume), five)] == [Completed(i', Extended(a, q, volume), five)];
    } else {
      JoinedPush(cs, Completed(i, a, five), b);
      JoinedPush(cs, Completed(i', Extended(a, q, volume), five), b);
    }
  }

  /** A new five-minute bar inside the same fifteen minutes extends them too. */
  lemma JoinedStarts(cs: seq<Candle>, q: Quote, volume: int, b: int, i: string, five: Interval)
    requires cs != [] && cs[|cs| - 1].source == q.source
    ensures Joined(cs + [Completed(i, Fresh(q, volume, five), five)], b) == Extended(Joined(cs, b), q, volume)
  {
    JoinedPush(cs, Completed(i, Fresh(q, volume, five), five), b);
  }

  /** The five-minute bars of the current fifteen minutes, the one under construction last. */
  function CurrentBars(a: seq<Quote>, five: Interval, fifteen: Interval): seq<Candle>
    requires a != []
  {
    var last := a[|a| - 1];
    Group(Emitted(a, five), fifteen.bar(last.time), fifteen) + [Completed(last.instrument, RunBar(a, five), five)]
  }

  /** The current fifteen-minute bar is what its five-minute bars amount to. */
  ghost predicate BarsAgree(a: seq<Quote>, five: Interval, fifteen: Interval)
    requires a != []
  {
    RunBar(a, fifteen) == Joined(CurrentBars(a, five, fifteen), fifteen.bar(a[|a| - 1].time))
  }

  lemma EmittedAppend(a: seq<Quote>, q: Quote, g: Interval)
    requires a != [] && a[|a| - 1].source == q.source
    ensures Emitted(a + [q], g)
         == Emitted(a, g) + if SameRun(a[|a| - 1], q, g) then [] else [Completed(q.instrument, RunBar(a, g), g)]
  {
    assert (a + [q])[..|a|] == a;
  }

  lemma GroupAppend(cs: seq<Candle>, c: Candle, b: int, g: Interval)
    ensures Group(cs + [c], b, g) == Group(cs, b, g) + if Bucket(c, g) == b then [c] else []
  {
    assert (cs + [c])[..|cs|] == cs;
  }

  lemma {:induction false} GroupOfLater(cs: seq<Candle>, b: int, g: Interval)
    requires forall i :: 0 <= i < |cs| ==> Bucket(cs[i], g) < b
    ensures Group(cs, b, g) == []
  {
    if cs != [] {
      GroupOfLater(cs[..|cs| - 1], b, g);
    }
  }

  lemma SameBarsKeepAgreeing(a: seq<Quote>, q: Quote, five: Interval, fifteen: Interval)
    requires a != [] && BarsAgree(a, five, fifteen) && SameRun(a[|a| - 1], q, five) && SameRun(a[|a| - 1], q, fifteen)
    ensures BarsAgree(a + [q], five, fifteen)
  {
    var p := a[|a| - 1];
    var b, volume := fifteen.bar(p.time), Delta(Some(p), q);
    RunExtends(a, q, five);
    RunExtends(a, q, fifteen);
    EmittedAppend(a, q, five);
    assert Emitted(a + [q], five) == Emitted(a, five);
    JoinedExtends(Group(Emitted(a, five), b, fifteen), RunBar(a, five), q, volume, b, p.instrument, q.instrument, five);
  }

  lemma JoinedIgnoresInstrument(cs: seq<Candle>, a: Active, i: string, i': string, b: int, five: Interval)
    ensures Joined(cs + [Completed(i, a, five)], b) == Joined(cs + [Completed(i', a, five)], b)
  {
    if cs == [] {
      JoinedOne(Completed(i, a, five), b);
      JoinedOne(Completed(i', a, five), b);
      assert cs + [Completed(i, a, five)] == [Completed(i, a, five)];
      assert cs + [Completed(i', a, five)] == [Completed(i', a, five)];
    } else {
      JoinedPush(cs, Completed(i, a, five), b);
      JoinedPush(cs, Completed(i', a, five), b);
    }
  }

  lemma NewFiveKeepsAgreeing(a: seq<Quote>, q: Quote, five: Interval, fifteen: Interval)
    requires a != [] && BarsAgree(a, five, fifteen) && Nested(five, fifteen, a[|a| - 1].time)
    requires !SameRun(a[|a| - 1], q, five) && SameRun(a[|a| - 1], q, fifteen)
    ensures BarsAgree(a + [q], five, fifteen)
  {
    var p := a[|a| - 1];
    var b, volume := fifteen.bar(p.time), Delta(Some(p), q);
    var c := Completed(q.instrument, RunBar(a, five), five);
    RunRestarts(a, q, five);
    RunExtends(a, q, fifteen);
    EmittedAppend(a, q, five);
    GroupAppend(Emitted(a, five), c, b, fifteen);
    var bars := Group(Emitted(a, five), b, fifteen) + [c];
    JoinedIgnoresInstrument(Group(Emitted(a, five), b, fifteen), RunBar(a, five), p.instrument, q.instrument, b, five);
    JoinedStarts(bars, q, volume, b, q.instrument, five);
  }

  lemma NewFifteenAgrees(a: seq<Quote>, q: Quote, five: Interval, fifteen: Interval)
    requires a != [] && !SameRun(a[|a| - 1], q, five) && !SameRun(a[|a| - 1], q, fifteen)
    requires Group(Emitted(a + [q], five), fifteen.bar(q.time), fifteen) == []
    ensures BarsAgree(a + [q], five, fifteen)
  {
    RunRestarts(a, q, five);
    RunRestarts(a, q, fifteen);
    JoinedOne(Completed(q.instrument, RunBar(a + [q], five), five), fifteen.bar(q.time));
    assert CurrentBars(a + [q], five, fifteen) == [Completed(q.instrument, RunBar(a + [q], five), five)];
  }

  lemma {:induction false} StartsOnGrid(a: seq<Quote>, five: Interval, fifteen: Interval)
    requires Grids(five, fifteen)
    ensures forall i :: 0 <= i < |Emitted(a, five)| ==> Emitted(a, five)[i].start % FIVE == 0
  {
    if |a| >= 2 {
      var n := |a| - 1;
      StartsOnGrid(a[..n], five, fifteen);
      assert Nested(five, fifteen, a[n - 1].time);
    }
  }

  /** The emitted five-minute bars lie on the grid, before the current one. */
  lemma {:induction false} EmittedOnGrid(a: seq<Quote>, five: Interval, fifteen: Interval)
    requires Grids(five, fifteen) && Increasing(a) && a != []
    ensures OnGrid(Emitted(a, five)) && OrderedBefore(Emitted(a, five), five.bar(a[|a| - 1].time))
  {
    EmittedAreOrdered(a, five);
    StartsOnGrid(a, five, fifteen);
  }

  lemma {:induction false} FifteenStartsOnGrid(a: seq<Quote>, fifteen: Interval)
    requires Fifteens(fifteen)
    ensures forall i :: 0 <= i < |Emitted(a, fifteen)| ==> Emitted(a, fifteen)[i].start % FIFTEEN == 0
  {
    if |a| >= 2 {
      var n := |a| - 1;
      FifteenStartsOnGrid(a[..n], fifteen);
      assert InFifteen(fifteen, a[n - 1].time);
    }
  }

  /** The induction's statement: resampling what was emitted is keeping the covered candles. */
  ghost predicate Commutes(a: seq<Quote>, instrument: string, five: Interval, fifteen: Interval) {
    Merged(Emitted(a, five), instrument, fifteen) == Covered(Emitted(a, fifteen), Emitted(a, five), instrument)
  }

  lemma MergedAppend(cs: seq<Candle>, c: Candle, instrument: string, g: Interval)
    ensures Merged(cs + [c], instrument, g) == Merged(cs, instrument, g) + FromBucket(cs + [c], Bucket(c, g), instrument, g)
  {
    assert (cs + [c])[..|cs|] == cs;
  }

  lemma NoLastBar(e: seq<Candle>, c: Candle, b: int)
    requires c.start < b + 2 * FIVE && forall x :: x in e ==> x.start < c.start
    ensures !AllThree(e + [c], b)
  {
    HasBarAppend(e, c, b + 2 * FIVE);
  }

  /** A bar that cannot be its bucket's last completes nothing. */
  lemma NewestNotWhole(e: seq<Candle>, c: Candle, b: int, instrument: string, g: Interval)
    requires Fifteens(g) && OnGrid(e + [c]) && Bucket(c, g) == b && c.start < b + 2 * FIVE
    requires forall x :: x in e ==> x.start < c.start
    ensures FromBucket(e + [c], b, instrument, g) == []
  {
    assert (e + [c])[|e|] == c;
    BucketOf(c, b, g);
    FromOrderedBucket(e + [c], b, instrument, g);
    WholeMeansAllThree(e + [c], b, g);
    NoLastBar(e, c, b);
  }

  lemma MultipleBelow(s: int, b: int)
    requires s % FIFTEEN == 0 && b % FIFTEEN == 0 && s < b
    ensures s + FIFTEEN <= b
  {
  }

  /** Earlier fifteen-minute bars end before the five-minute bar being completed. */
  lemma EarlierFifteens(a: seq<Quote>, five: Interval, fifteen: Interval)
    requires Grids(five, fifteen) && a != [] && Increasing(a)
    ensures forall i :: 0 <= i < |Emitted(a, fifteen)| ==> Emitted(a, fifteen)[i].start + 2 * FIVE < five.bar(a[|a| - 1].time)
  {
    var t := a[|a| - 1].time;
    EmittedAreOrdered(a, fifteen);
    FifteenStartsOnGrid(a, fifteen);
    assert Nested(five, fifteen, t) && InFifteen(fifteen, t) && InFifteen(fifteen, five.bar(t));
    forall i | 0 <= i < |Emitted(a, fifteen)|
      ensures Emitted(a, fifteen)[i].start + 2 * FIVE < five.bar(t)
    {
      MultipleBelow(Emitted(a, fifteen)[i].start, fifteen.bar(t));
    }
  }

  /** The five-minute bar of p ends before q's begins, so it is not the bucket's last. */
  lemma NotTheLast(p: int, q: int, five: Interval, fifteen: Interval)
    requires Grids(five, fifteen) && p < q && five.bar(p) != five.bar(q) && fifteen.bar(p) == fifteen.bar(q)
    ensures five.bar(p) < fifteen.bar(p) + 2 * FIVE && fifteen.bar(five.bar(p)) == fifteen.bar(p)
  {
    assert Nested(five, fifteen, p) && Nested(five, fifteen, q) && InOrder(five, p, q);
    assert InFifteen(fifteen, five.bar(p)) && InFifteen(fifteen, five.bar(q));
  }

  lemma Parts(a: seq<Quote>, q: Quote)
    requires a != [] && Increasing(a + [q])
    ensures Increasing(a) && a[|a| - 1].time < q.time
  {
    assert (a + [q])[|a| - 1] == a[|a| - 1] && (a + [q])[|a|] == q;
    assert forall i :: 0 <= i < |a| ==> (a + [q])[i] == a[i];
  }

  lemma AppendedOnGrid(a: seq<Quote>, q: Quote, five: Interval, fifteen: Interval)
    requires Grids(five, fifteen) && a != [] && Increasing(a) && a[|a| - 1].source == q.source
    ensures var c := Completed(q.instrument, RunBar(a, five), five);
            OnGrid(Emitted(a, five) + [c]) && forall x :: x in Emitted(a, five) ==> x.start < c.start
  {
    EmittedOnGrid(a, five, fifteen);
    assert Nested(five, fifteen, a[|a| - 1].time);
    assert forall x :: x in Emitted(a, five) ==> exists i :: 0 <= i < |Emitted(a, five)| && Emitted(a, five)[i] == x;
    OnGridAppend(Emitted(a, five), Completed(q.instrument, RunBar(a, five), five));
  }

  lemma PartialBarMergesNothing(a: seq<Quote>, q: Quote, instrument: string, five: Interval, fifteen: Interval)
    requires Grids(five, fifteen) && a != [] && Increasing(a) && a[|a| - 1].time < q.time
    requires a[|a| - 1].source == q.source
    requires !SameRun(a[|a| - 1], q, five) && SameRun(a[|a| - 1], q, fifteen)
    ensures var e, c := Emitted(a, five), Completed(q.instrument, RunBar(a, five), five);
            Merged(e + [c], instrument, fifteen) == Merged(e, instrument, fifteen)
  {
    var p, e := a[|a| - 1], Emitted(a, five);
    var c := Completed(q.instrument, RunBar(a, five), five);
    AppendedOnGrid(a, q, five, fifteen);
    NotTheLast(p.time, q.time, five, fifteen);
    NewestNotWhole(e, c, fifteen.bar(p.time), instrument, fifteen);
    MergedAppend(e, c, instrument, fifteen);
  }

  /** Completing a five-minute bar that is not its bucket's last leaves both sides alone. */
  lemma NewFiveCommutes(a: seq<Quote>, q: Quote, instrument: string, five: Interval, fifteen: Interval)
    requires Grids(five, fifteen) && a != [] && Increasing(a + [q]) && Commutes(a, instrument, five, fifteen)
    requires a[|a| - 1].source == q.source
    requires !SameRun(a[|a| - 1], q, five) && SameRun(a[|a| - 1], q, fifteen)
    ensures Commutes(a + [q], instrument, five, fifteen)
  {
    var c := Completed(q.instrument, RunBar(a, five), five);
    Parts(a, q);
    EmittedAppend(a, q, five);
    EmittedAppend(a, q, fifteen);
    assert Emitted(a + [q], fifteen) == Emitted(a, fifteen);
    PartialBarMergesNothing(a, q, instrument, five, fifteen);
    EarlierFifteens(a, five, fifteen);
    CoveredIgnoresLater(Emitted(a, fifteen), Emitted(a, five), c, instrument);
  }

  /** The last bar of a bucket completes it exactly when all three bars are there. */
  lemma NewestCompletes(e: seq<Candle>, c: Candle, b: int, instrument: string, g: Interval, d: Candle)
    requires Fifteens(g) && OnGrid(e + [c]) && Bucket(c, g) == b && b % FIFTEEN == 0
    requires d.minutes == 15 && d.start == b && d.end == b + FIFTEEN
    requires Joined(Group(e, b, g) + [c], b)
          == Active(b, d.open, d.high, d.low, d.close, d.volume, d.openInterest, d.source)
    ensures FromBucket(e + [c], b, instrument, g) == if AllThree(e + [c], b) then [Rebadged(d, instrument)] else []
  {
    FromOrderedBucket(e + [c], b, instrument, g);
    WholeMeansAllThree(e + [c], b, g);
    GroupAppend(e, c, b, g);
  }

  lemma CoveredAppend(cs15: seq<Candle>, d: Candle, cs5: seq<Candle>, instrument: string)
    ensures Covered(cs15 + [d], cs5, instrument)
         == Covered(cs15, cs5, instrument) + if AllThree(cs5, d.start) then [Rebadged(d, instrument)] else []
  {
    assert (cs15 + [d])[..|cs15|] == cs15;
  }

  /** Leaving a fifteen-minute bar completes it on both sides, or on neither. */
  lemma NewFifteenCommutes(a: seq<Quote>, q: Quote, instrument: string, five: Interval, fifteen: Interval)
    requires Grids(five, fifteen) && a != [] && Increasing(a + [q]) && Commutes(a, instrument, five, fifteen)
    requires BarsAgree(a, five, fifteen) && a[|a| - 1].source == q.source
    requires !SameRun(a[|a| - 1], q, five) && !SameRun(a[|a| - 1], q, fifteen)
    ensures Commutes(a + [q], instrument, five, fifteen)
  {
    var p, e := a[|a| - 1], Emitted(a, five);
    var b, c := fifteen.bar(p.time), Completed(q.instrument, RunBar(a, five), five);
    var d := Completed(q.instrument, RunBar(a, fifteen), fifteen);
    Parts(a, q);
    EmittedAppend(a, q, five);
    EmittedAppend(a, q, fifteen);
    AppendedOnGrid(a, q, five, fifteen);
    assert Nested(five, fifteen, p.time) && InFifteen(fifteen, p.time);
    JoinedIgnoresInstrument(Group(e, b, fifteen), RunBar(a, five), p.instrument, q.instrument, b, five);
    NewestCompletes(e, c, b, instrument, fifteen, d);
    MergedAppend(e, c, instrument, fifteen);
    EarlierFifteens(a, five, fifteen);
    CoveredIgnoresLater(Emitted(a, fifteen), e, c, instrument);
    CoveredAppend(Emitted(a, fifteen), d, e + [c], instrument);
  }

  lemma EarlierBarsLeft(a: seq<Quote>, q: Quote, five: Interval, fifteen: Interval)
    requires Grids(five, fifteen) && a != [] && Increasing(a + [q]) && a[|a| - 1].source == q.source
    requires !SameRun(a[|a| - 1], q, five) && !SameRun(a[|a| - 1], q, fifteen)
    ensures Group(Emitted(a + [q], five), fifteen.bar(q.time), fifteen) == []
  {
    var p, e := a[|a| - 1], Emitted(a + [q], five);
    assert p.time < q.time by { assert (a + [q])[|a| - 1] == p && (a + [q])[|a|] == q; }
    assert Increasing(a) by { assert forall i :: 0 <= i < |a| ==> (a + [q])[i] == a[i]; }
    EmittedAppend(a, q, five);
    EmittedOnGrid(a, five, fifteen);
    assert Nested(five, fifteen, p.time) && InOrder(fifteen, p.time, q.time);
    forall i | 0 <= i < |e| ensures Bucket(e[i], fifteen) < fifteen.bar(q.time) {
      assert InOrder(fifteen, e[i].start, five.bar(p.time));
    }
    GroupOfLater(e, fifteen.bar(q.time), fifteen);
  }

  lemma QuoteKeepsAgreement(a: seq<Quote>, q: Quote, instrument: string, five: Interval, fifteen: Interval)
    requires Grids(five, fifteen) && a != [] && Increasing(a + [q]) && a[|a| - 1].source == q.source
    requires Nested(five, fifteen, a[|a| - 1].time) && Nested(five, fifteen, q.time)
    requires BarsAgree(a, five, fifteen) && Commutes(a, instrument, five, fifteen)
    ensures BarsAgree(a + [q], five, fifteen) && Commutes(a + [q], instrument, five, fifteen)
  {
    var p := a[|a| - 1];
    if SameRun(p, q, five) {
      assert SameRun(p, q, fifteen);
      SameBarsKeepAgreeing(a, q, five, fifteen);
      EmittedAppend(a, q, five);
      EmittedAppend(a, q, fifteen);
      assert Emitted(a, five) + [] == Emitted(a, five) && Emitted(a, fifteen) + [] == Emitted(a, fifteen);
    } else if SameRun(p, q, fifteen) {
      NewFiveKeepsAgreeing(a, q, five, fifteen);
      NewFiveCommutes(a, q, instrument, five, fifteen);
    } else {
      EarlierBarsLeft(a, q, five, fifteen);
      NewFifteenAgrees(a, q, five, fifteen);
      NewFifteenCommutes(a, q, instrument, five, fifteen);
    }
  }

  lemma OneQuoteAgrees(q: Quote, instrument: string, five: Interval, fifteen: Interval)
    ensures BarsAgree([q], five, fifteen) && Commutes([q], instrument, five, fifteen)
  {
    FirstQuote(q, five);
    FirstQuote(q, fifteen);
    assert CurrentBars([q], five, fifteen) == [Completed(q.instrument, RunBar([q], five), five)];
    JoinedOne(Completed(q.instrument, RunBar([q], five), five), fifteen.bar(q.time));
  }

  lemma {:induction false} BuildersAgree(a: seq<Quote>, instrument: string, five: Interval, fifteen: Interval)
    requires Grids(five, fifteen) && a != [] && Increasing(a) && OneSource(a)
    ensures BarsAgree(a, five, fifteen) && Commutes(a, instrument, five, fifteen)
  {
    var n := |a| - 1;
    if n == 0 {
      OneQuoteAgrees(a[0], instrument, five, fifteen);
      assert a == [a[0]];
    } else {
      var before, q := a[..n], a[n];
      assert a == before + [q];
      assert before[n - 1].source == q.source;
      BuildersAgree(before, instrument, five, fifteen);
      assert Nested(five, fifteen, before[n - 1].time) && Nested(five, fifteen, q.time);
      QuoteKeepsAgreement(before, q, instrument, five, fifteen);
    }
  }

  lemma {:induction false} OfIsPart(qs: seq<Quote>, instrument: string)
    ensures forall q :: q in Of(qs, instrument) ==> q in qs
  {
    if qs != [] {
      OfIsPart(qs[..|qs| - 1], instrument);
    }
  }

  lemma OneSourceAccepted(qs: seq<Quote>, instrument: string)
    requires OneSource(qs)
    ensures OneSource(Accepted(Of(qs, instrument)))
  {
    AcceptedIncreases(Of(qs, instrument));
    OfIsPart(qs, instrument);
    var a := Accepted(Of(qs, instrument));
    forall i, j | 0 <= i < j < |a| ensures a[i].source == a[j].source {
      assert a[i] in qs && a[j] in qs;
    }
  }

  /** For every stream of one instrument's quotes from one source, late quotes included, the
      resampled output of the five-minute builder is exactly the fifteen-minute builder's output
      for the bars whose three five-minute candles exist, apart from the source tag. */
  lemma ResamplingCommutes(qs: seq<Quote>, instrument: string)
    requires OneSource(qs) && forall i :: 0 <= i < |qs| ==> qs[i].instrument == instrument
    ensures var five, fifteen := Process(qs, Grid(5)).emitted, Process(qs, Grid(15)).emitted;
            Resampled(CandlesOf(five, instrument), instrument, Grid(15))
            == Covered(CandlesOf(fifteen, instrument), CandlesOf(five, instrument), instrument)
  {
    var a := Accepted(Of(qs, instrument));
    StreamRefinesBatch(qs, Grid(5), instrument);
    StreamRefinesBatch(qs, Grid(15), instrument);
    BuilderGrids();
    AcceptedIncreases(Of(qs, instrument));
    if a == [] {
      assert Buckets([], Grid(15)) == [];
    } else {
      OneSourceAccepted(qs, instrument);
      BuildersAgree(a, instrument, Grid(5), Grid(15));
      EmittedOnGrid(a, Grid(5), Grid(15));
      ResampledIsMerged(Emitted(a, Grid(5)), instrument, Grid(15));
    }
  }
}
