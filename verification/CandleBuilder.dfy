/** The streaming candle builder, and the batch group-by it refines. Times are microseconds of
    UTC wall clock, so an hour boundary is a multiple of HOUR. */
module CandleBuilder {
  import opened Common

  const MINUTE := 60_000_000
  const HOUR := 60 * MINUTE
  const DAY := 24 * HOUR
  const IST_OFFSET := 5 * HOUR + 30 * MINUTE

  datatype Quote = Quote(instrument: string, source: string, price: real, volume: int, openInterest: int, time: int)

  datatype Candle = Candle(
    instrument: string,
    minutes: int,
    start: int,
    end: int,
    open: real,
    high: real,
    low: real,
    close: real,
    volume: int,
    openInterest: int,
    source: string)

  /** The bar under construction for one instrument. */
  datatype Active = Active(
    start: int, open: real, high: real, low: real, close: real, volume: int, openInterest: int, source: string)

  /** The minute of the hour rounded down to a multiple of the interval. */
  function BarMinute(time: int, minutes: int): int
    requires minutes > 0
  {
    time % HOUR / MINUTE / minutes * minutes
  }

  function BarStart(time: int, minutes: int): int
    requires minutes > 0
  {
    time / HOUR * HOUR + BarMinute(time, minutes) * MINUTE
  }

  /** An interval: its length and where the bar holding a time starts. The group-by below does not
      depend on which function that is. */
  datatype Interval = Interval(minutes: int, bar: int -> int)

  function Grid(minutes: int): Interval
    requires minutes > 0
  {
    Interval(minutes, t => BarStart(t, minutes))
  }

  function IstDate(time: int): int {
    (time + IST_OFFSET) / DAY
  }

  /** The volume one quote adds: a non-negative change of the same feed on the same day. */
  function Delta(previous: Option<Quote>, q: Quote): int {
    if previous.Some? && previous.value.source == q.source && IstDate(previous.value.time) == IstDate(q.time)
    then Max(0, q.volume - previous.value.volume)
    else 0
  }

  function Completed(instrument: string, a: Active, g: Interval): Candle {
    Candle(instrument, g.minutes, a.start, a.start + g.minutes * MINUTE, a.open, a.high, a.low, a.close,
           a.volume, a.openInterest, a.source)
  }

  // ---- the batch definition, over the accepted quotes of one instrument ----

  /** The quotes newer than every accepted one before them. */
  function Accepted(qs: seq<Quote>): seq<Quote> {
    if qs == [] then []
    else
      var before, q := Accepted(qs[..|qs| - 1]), qs[|qs| - 1];
      if before == [] || q.time > before[|before| - 1].time then before + [q] else before
  }

  predicate SameRun(p: Quote, q: Quote, g: Interval)
  {
    p.source == q.source && g.bar(p.time) == g.bar(q.time)
  }

  /** Where the last maximal run of one source in one bar begins. */
  function RunStart(a: seq<Quote>, g: Interval): (l: nat)
    requires a != []
    ensures l < |a|
  {
    var n := |a| - 1;
    if n > 0 && SameRun(a[n - 1], a[n], g) then RunStart(a[..n], g) else n
  }

  function High(run: seq<Quote>): real
    requires run != []
  {
    var n := |run| - 1;
    if n == 0 then run[0].price else MaxReal(High(run[..n]), run[n].price)
  }

  function Low(run: seq<Quote>): real
    requires run != []
  {
    var n := |run| - 1;
    if n == 0 then run[0].price else MinReal(Low(run[..n]), run[n].price)
  }

  /** The summed volume changes of the quotes from index l on. */
  function VolumeFrom(a: seq<Quote>, l: nat): int
    requires l <= |a|
  {
    if l == |a| then 0
    else
      var n := |a| - 1;
      VolumeFrom(a[..n], l) + Delta(if n > 0 then Some(a[n - 1]) else None, a[n])
  }

  /** The run's first, highest, lowest and last price, its volume, and its last open interest. */
  function RunBar(a: seq<Quote>, g: Interval): Active
    requires a != []
  {
    var l := RunStart(a, g);
    var last := a[|a| - 1];
    Active(g.bar(last.time), a[l].price, High(a[l..]), Low(a[l..]), last.price,
           VolumeFrom(a, l), last.openInterest, last.source)
  }

  /** A run is emitted when the next accepted quote has its source and another bar. */
  function Emitted(a: seq<Quote>, g: Interval): seq<Candle>
  {
    if |a| < 2 then []
    else
      var n := |a| - 1;
      var (before, p, q) := (a[..n], a[n - 1], a[n]);
      Emitted(before, g)
      + if p.source == q.source && !SameRun(p, q, g) then [Completed(q.instrument, RunBar(before, g), g)] else []
  }

  // ---- the streaming step ----

  datatype Slot = Slot(active: Active, previous: Quote)

  function Fresh(q: Quote, volume: int, g: Interval): Active
  {
    Active(g.bar(q.time), q.price, q.price, q.price, q.price, volume, q.openInterest, q.source)
  }

  /** One quote against its instrument's slot. */
  function NextSlot(slot: Option<Slot>, q: Quote, g: Interval): Slot
  {
    match slot
    case None => Slot(Fresh(q, 0, g), q)
    case Some(Slot(a, p)) =>
      if q.time <= p.time then slot.value
      else
        var volume := Delta(Some(p), q);
        if a.source != q.source || a.start != g.bar(q.time) then Slot(Fresh(q, volume, g), q)
        else Slot(a.(high := MaxReal(a.high, q.price), low := MinReal(a.low, q.price), close := q.price,
                     volume := a.volume + volume, openInterest := q.openInterest), q)
  }

  function Emission(slot: Option<Slot>, q: Quote, g: Interval): Option<Candle>
  {
    match slot
    case None => None
    case Some(Slot(a, p)) =>
      if q.time > p.time && a.source == q.source && a.start != g.bar(q.time)
      then Some(Completed(q.instrument, a, g))
      else None
  }

  class CandleBuilder {
    const minutes: int
    var currentCandles: map<string, Active>
    var lastQuotes: map<string, Quote>

    ghost predicate Valid()
      reads this
    {
      minutes > 0 && currentCandles.Keys == lastQuotes.Keys
    }

    ghost function SlotOf(instrument: string): Option<Slot>
      reads this
      requires Valid()
    {
      if instrument in currentCandles then Some(Slot(currentCandles[instrument], lastQuotes[instrument])) else None
    }

    constructor (minutes: int)
      requires minutes > 0
      ensures Valid() && this.minutes == minutes
      ensures forall i :: SlotOf(i) == None
    {
      this.minutes := minutes;
      currentCandles, lastQuotes := map[], map[];
    }

    method ProcessQuote(quote: Quote) returns (completed: Option<Candle>)
      requires Valid()
      modifies this
      ensures Valid()
      ensures SlotOf(quote.instrument) == Some(NextSlot(old(SlotOf(quote.instrument)), quote, Grid(minutes)))
      ensures forall i :: i != quote.instrument ==> SlotOf(i) == old(SlotOf(i))
      ensures completed == Emission(old(SlotOf(quote.instrument)), quote, Grid(minutes))
    {
      var start := BarStart(quote.time, minutes);
      var id := quote.instrument;
      var active := if id in currentCandles then Some(currentCandles[id]) else None;
      var previous := if id in lastQuotes then Some(lastQuotes[id]) else None;
      completed := None;
      if previous.Some? && quote.time <= previous.value.time {
        return;
      }
      var volume := Delta(previous, quote);
      lastQuotes := lastQuotes[id := quote];
      if active.Some? && active.value.source != quote.source {
        active := None;
      }
      if active.Some? && active.value.start != start {
        completed := Some(Completed(id, active.value, Grid(minutes)));
        active := None;
      }
      if active == None {
        currentCandles := currentCandles[id := Fresh(quote, volume, Grid(minutes))];
      } else {
        var a := active.value;
        currentCandles := currentCandles[id :=
          a.(high := MaxReal(a.high, quote.price), low := MinReal(a.low, quote.price), close := quote.price,
             volume := a.volume + volume, openInterest := quote.openInterest)];
      }
    }
  }

  // ---- whole streams ----

  /** The builder's slots and everything it emitted, after a stream of interleaved quotes. */
  datatype Stream = Stream(slots: map<string, Slot>, emitted: seq<Candle>)

  function Lookup(slots: map<string, Slot>, instrument: string): Option<Slot> {
    if instrument in slots then Some(slots[instrument]) else None
  }

  function ToSeq<T>(o: Option<T>): seq<T> {
    if o.Some? then [o.value] else []
  }

  function Process(qs: seq<Quote>, g: Interval): Stream
  {
    if qs == [] then Stream(map[], [])
    else
      var before, q := Process(qs[..|qs| - 1], g), qs[|qs| - 1];
      var slot := Lookup(before.slots, q.instrument);
      Stream(before.slots[q.instrument := NextSlot(slot, q, g)],
             before.emitted + ToSeq(Emission(slot, q, g)))
  }

  function Of(qs: seq<Quote>, instrument: string): seq<Quote> {
    if qs == [] then []
    else Of(qs[..|qs| - 1], instrument) + if qs[|qs| - 1].instrument == instrument then [qs[|qs| - 1]] else []
  }

  function CandlesOf(cs: seq<Candle>, instrument: string): seq<Candle> {
    if cs == [] then []
    else CandlesOf(cs[..|cs| - 1], instrument) + if cs[|cs| - 1].instrument == instrument then [cs[|cs| - 1]] else []
  }

  lemma CandlesOfAppend(cs: seq<Candle>, more: Option<Candle>, instrument: string)
    ensures CandlesOf(cs + ToSeq(more), instrument)
         == CandlesOf(cs, instrument) + if more.Some? && more.value.instrument == instrument then [more.value] else []
  {
    if more.Some? {
      assert (cs + [more.value])[..|cs|] == cs;
    } else {
      assert cs + [] == cs;
    }
  }

  lemma VolumeAppend(a: seq<Quote>, q: Quote, l: nat)
    requires a != [] && l <= |a|
    ensures VolumeFrom(a + [q], l) == VolumeFrom(a, l) + Delta(Some(a[|a| - 1]), q)
  {
    assert (a + [q])[..|a|] == a;
  }

  lemma RunExtends(a: seq<Quote>, q: Quote, g: Interval)
    requires a != [] && SameRun(a[|a| - 1], q, g)
    ensures var l, volume := RunStart(a, g), Delta(Some(a[|a| - 1]), q); var bar := RunBar(a, g);
            RunBar(a + [q], g) == bar.(high := MaxReal(bar.high, q.price), low := MinReal(bar.low, q.price), close := q.price,
                                       volume := bar.volume + volume, openInterest := q.openInterest)
  {
    var b, l := a + [q], RunStart(a, g);
    assert b[..|a|] == a;
    assert RunStart(b, g) == l;
    var run := b[l..];
    assert run == a[l..] + [q] && run[..|run| - 1] == a[l..];
    VolumeAppend(a, q, l);
  }

  lemma RunRestarts(a: seq<Quote>, q: Quote, g: Interval)
    requires a != [] && !SameRun(a[|a| - 1], q, g)
    ensures RunBar(a + [q], g) == Fresh(q, Delta(Some(a[|a| - 1]), q), g)
  {
    var b := a + [q];
    assert b[..|a|] == a && b[|a|..] == [q];
    assert RunStart(b, g) == |a|;
    VolumeAppend(a, q, |a|);
  }

  /** A quote of the same run extends the run's bar; any other starts a bar of its own. */
  lemma RunBarAppend(a: seq<Quote>, q: Quote, g: Interval)
    requires a != [] && q.time > a[|a| - 1].time
    ensures NextSlot(Some(Slot(RunBar(a, g), a[|a| - 1])), q, g) == Slot(RunBar(a + [q], g), q)
  {
    if SameRun(a[|a| - 1], q, g) {
      RunExtends(a, q, g);
    } else {
      RunRestarts(a, q, g);
    }
  }

  /** What the builder knows of one instrument is the last run of its accepted quotes. */
  ghost predicate Refines(slot: Option<Slot>, a: seq<Quote>, g: Interval)
  {
    if a == [] then slot == None else slot == Some(Slot(RunBar(a, g), a[|a| - 1]))
  }

  lemma EmissionIsLastRun(a: seq<Quote>, q: Quote, g: Interval)
    requires a != [] && q.time > a[|a| - 1].time
    ensures Emitted(a + [q], g)
         == Emitted(a, g) + ToSeq(Emission(Some(Slot(RunBar(a, g), a[|a| - 1])), q, g))
  {
    assert (a + [q])[..|a|] == a;
  }

  lemma AcceptedAppend(qs: seq<Quote>, q: Quote)
    ensures var a := Accepted(qs);
            Accepted(qs + [q]) == if a == [] || q.time > a[|a| - 1].time then a + [q] else a
  {
    assert (qs + [q])[..|qs|] == qs;
  }

  lemma FirstQuote(q: Quote, g: Interval)
    ensures RunBar([q], g) == Fresh(q, 0, g) && Emitted([q], g) == []
  {
    assert [q][0..] == [q] && [q][..0] == [];
    assert VolumeFrom([], 0) == 0;
  }

  lemma LateQuoteChangesNothing(slot: Option<Slot>, q: Quote, g: Interval)
    requires slot.Some? && q.time <= slot.value.previous.time
    ensures NextSlot(slot, q, g) == slot.value && ToSeq(Emission(slot, q, g)) == []
  {
  }

  lemma NewQuoteStep(a: seq<Quote>, q: Quote, slot: Option<Slot>, g: Interval)
    requires Refines(slot, a, g) && (a == [] || q.time > a[|a| - 1].time)
    ensures Refines(Some(NextSlot(slot, q, g)), a + [q], g)
    ensures Emitted(a + [q], g) == Emitted(a, g) + ToSeq(Emission(slot, q, g))
  {
    if a == [] {
      FirstQuote(q, g);
      assert a + [q] == [q];
    } else {
      RunBarAppend(a, q, g);
      EmissionIsLastRun(a, q, g);
    }
  }

  lemma BatchStep(before: seq<Quote>, q: Quote, slot: Option<Slot>, g: Interval)
    requires Refines(slot, Accepted(before), g)
    ensures Refines(Some(NextSlot(slot, q, g)), Accepted(before + [q]), g)
    ensures Emitted(Accepted(before + [q]), g) == Emitted(Accepted(before), g) + ToSeq(Emission(slot, q, g))
  {
    var a := Accepted(before);
    AcceptedAppend(before, q);
    if a == [] || q.time > a[|a| - 1].time {
      NewQuoteStep(a, q, slot, g);
    } else {
      LateQuoteChangesNothing(slot, q, g);
      assert Emitted(a, g) + [] == Emitted(a, g);
    }
  }

  /** What one quote of the stream does for one instrument. */
  lemma ProcessStep(qs: seq<Quote>, g: Interval, instrument: string)
    requires qs != []
    ensures var q := qs[|qs| - 1];
            var before, after := Process(qs[..|qs| - 1], g), Process(qs, g);
            var slot := Lookup(before.slots, instrument);
            if q.instrument == instrument
            then && Lookup(after.slots, instrument) == Some(NextSlot(slot, q, g))
                 && CandlesOf(after.emitted, instrument) == CandlesOf(before.emitted, instrument) + ToSeq(Emission(slot, q, g))
                 && Of(qs, instrument) == Of(qs[..|qs| - 1], instrument) + [q]
            else && Lookup(after.slots, instrument) == slot
                 && CandlesOf(after.emitted, instrument) == CandlesOf(before.emitted, instrument)
                 && Of(qs, instrument) == Of(qs[..|qs| - 1], instrument)
  {
    var q := qs[|qs| - 1];
    var before := Process(qs[..|qs| - 1], g);
    CandlesOfAppend(before.emitted, Emission(Lookup(before.slots, q.instrument), q, g), instrument);
  }

  /** For any interleaving of instruments, with late quotes and source switches, the builder emits
      for each instrument exactly the batch candles of that instrument's own accepted quotes, and
      holds the bar of their last run; other instruments have no influence. */
  lemma {:induction false} StreamRefinesBatch(qs: seq<Quote>, g: Interval, instrument: string)
    ensures var a := Accepted(Of(qs, instrument));
            && CandlesOf(Process(qs, g).emitted, instrument) == Emitted(a, g)
            && Refines(Lookup(Process(qs, g).slots, instrument), a, g)
  {
    if qs != [] {
      var n := |qs| - 1;
      StreamRefinesBatch(qs[..n], g, instrument);
      ProcessStep(qs, g, instrument);
      if qs[n].instrument == instrument {
        BatchStep(Of(qs[..n], instrument), qs[n], Lookup(Process(qs[..n], g).slots, instrument), g);
      }
    }
  }
}
