/** The insert-or-replace candle table and the additive backfill on top of it. */
module CandleStore {
  import opened Common

  datatype Key = Key(instrument: string, interval: string, start: int)

  datatype Candle = Candle(
    instrument: string,
    interval: string,
    start: int,
    end: int,
    open: real,
    high: real,
    low: real,
    close: real,
    volume: int,
    openInterest: int,
    source: string)

  type Table = map<Key, Candle>

  function KeyOf(c: Candle): Key {
    Key(c.instrument, c.interval, c.start)
  }

  /** One row a key: candles share a row exactly when instrument, interval and start agree. */
  lemma KeyIdentifies(c: Candle, d: Candle)
    ensures KeyOf(c) == KeyOf(d) <==> c.instrument == d.instrument && c.interval == d.interval && c.start == d.start
  {
  }

  /** INSERT OR REPLACE, one candle after the other. */
  function Saved(rows: Table, cs: seq<Candle>): Table {
    if cs == [] then rows
    else Saved(rows, cs[..|cs| - 1])[KeyOf(cs[|cs| - 1]) := cs[|cs| - 1]]
  }

  function Lowest(cs: seq<Candle>): int
    requires cs != []
  {
    if |cs| == 1 then cs[0].start else Min(Lowest(cs[..|cs| - 1]), cs[|cs| - 1].start)
  }

  function Highest(cs: seq<Candle>): int
    requires cs != []
  {
    if |cs| == 1 then cs[0].start else Max(Highest(cs[..|cs| - 1]), cs[|cs| - 1].start)
  }

  class HistoricalRepository {
    var rows: Table

    constructor ()
      ensures rows == map[]
    {
      rows := map[];
    }

    method SaveCandles(candles: seq<Candle>)
      modifies this
      ensures rows == Saved(old(rows), candles)
    {
      for i := 0 to |candles|
        invariant rows == Saved(old(rows), candles[..i])
      {
        assert candles[..i + 1][..i] == candles[..i];
        rows := rows[KeyOf(candles[i]) := candles[i]];
      }
      assert candles[..|candles|] == candles;
    }

    method GetExistingCandleKeys(instrument: string, interval: string, from: int, to: int) returns (keys: set<Key>)
      ensures keys == set k | k in rows && k.instrument == instrument && k.interval == interval && from <= k.start <= to
    {
      keys := set k | k in rows && k.instrument == instrument && k.interval == interval && from <= k.start <= to;
    }
  }

  // ---- the additive save ----

  /** The keys a batch asks about: those of its first candle's series within its time range. */
  function Existing(rows: Table, cs: seq<Candle>): set<Key>
    requires cs != []
  {
    set k | k in rows && k.instrument == cs[0].instrument && k.interval == cs[0].interval && Lowest(cs) <= k.start <= Highest(cs)
  }

  predicate Holds(cs: seq<Candle>, k: Key) {
    exists i :: 0 <= i < |cs| && KeyOf(cs[i]) == k
  }

  /** The first occurrence of each key that was not reported as existing. */
  function FirstNew(cs: seq<Candle>, existing: set<Key>): seq<Candle> {
    if cs == [] then []
    else
      var before, c := FirstNew(cs[..|cs| - 1], existing), cs[|cs| - 1];
      if KeyOf(c) in existing || Holds(before, KeyOf(c)) then before else before + [c]
  }

  function Added(rows: Table, cs: seq<Candle>): seq<Candle> {
    if cs == [] then [] else FirstNew(cs, Existing(rows, cs))
  }

  lemma HoldsAppend(cs: seq<Candle>, c: Candle)
    ensures forall k :: Holds(cs + [c], k) <==> Holds(cs, k) || k == KeyOf(c)
  {
    assert forall i :: 0 <= i < |cs| ==> (cs + [c])[i] == cs[i];
    assert (cs + [c])[|cs|] == c;
  }

  class BreezeHistoricalBackfill {
    const repo: HistoricalRepository
    var inserted: nat
    var skipped: nat

    constructor (repo: HistoricalRepository)
      ensures this.repo == repo && inserted == skipped == 0
    {
      this.repo := repo;
      inserted, skipped := 0, 0;
    }

    method SaveAdditive(candles: seq<Candle>)
      modifies this, repo
      ensures repo.rows == Saved(old(repo.rows), Added(old(repo.rows), candles))
      ensures inserted == old(inserted) + |Added(old(repo.rows), candles)|
      ensures inserted + skipped == old(inserted) + old(skipped) + |candles|
    {
      if candles == [] {
        return;
      }
      var existing := repo.GetExistingCandleKeys(candles[0].instrument, candles[0].interval, Lowest(candles), Highest(candles));
      var newCandles: seq<Candle> := [];
      var seen: set<Key> := {};
      for i := 0 to |candles|
        invariant newCandles == FirstNew(candles[..i], existing)
        invariant forall k :: k in seen <==> Holds(newCandles, k)
        invariant |newCandles| + skipped == old(skipped) + i
        invariant repo.rows == old(repo.rows) && inserted == old(inserted)
      {
        assert candles[..i + 1][..i] == candles[..i];
        var c := candles[i];
        if KeyOf(c) in existing || KeyOf(c) in seen {
          skipped := skipped + 1;
          continue;
        }
        HoldsAppend(newCandles, c);
        seen := seen + {KeyOf(c)};
        newCandles := newCandles + [c];
      }
      assert candles[..|candles|] == candles;
      repo.SaveCandles(newCandles);
      inserted := inserted + |newCandles|;
    }
  }

  // ---- what it guarantees ----

  /** One series: what every caller of the additive save passes. */
  ghost predicate OneSeries(cs: seq<Candle>) {
    forall i :: 0 <= i < |cs| ==> cs[i].instrument == cs[0].instrument && cs[i].interval == cs[0].interval
  }

  /** The first candle of the batch with a key. */
  function FirstWith(cs: seq<Candle>, k: Key): Option<Candle> {
    if cs == [] then None
    else if KeyOf(cs[0]) == k then Some(cs[0])
    else FirstWith(cs[1..], k)
  }

  ghost predicate DistinctKeys(cs: seq<Candle>) {
    forall i, j :: 0 <= i < j < |cs| ==> KeyOf(cs[i]) != KeyOf(cs[j])
  }

  lemma {:induction false} InRange(cs: seq<Candle>, i: nat)
    requires i < |cs|
    ensures Lowest(cs) <= cs[i].start <= Highest(cs)
  {
    if i < |cs| - 1 {
      InRange(cs[..|cs| - 1], i);
    }
  }

  /** Saving distinct keys writes exactly those rows. */
  lemma {:induction false} SavedLookup(rows: Table, cs: seq<Candle>, k: Key)
    requires DistinctKeys(cs)
    ensures k in Saved(rows, cs) <==> k in rows || Holds(cs, k)
    ensures !Holds(cs, k) && k in rows ==> Saved(rows, cs)[k] == rows[k]
    ensures forall i :: 0 <= i < |cs| && KeyOf(cs[i]) == k ==> Saved(rows, cs)[k] == cs[i]
  {
    if cs != [] {
      var n := |cs| - 1;
      SavedLookup(rows, cs[..n], k);
      HoldsAppend(cs[..n], cs[n]);
      assert cs == cs[..n] + [cs[n]];
    }
  }

  /** Candle `i` is the last of the batch with this key. */
  ghost predicate LastWith(cs: seq<Candle>, k: Key, i: int) {
    0 <= i < |cs| && KeyOf(cs[i]) == k && forall j :: i < j < |cs| ==> KeyOf(cs[j]) != k
  }

  /** Of several candles with one key the last one saved stays; a row with another key is not touched. */
  lemma {:induction false} LastWriteStays(rows: Table, cs: seq<Candle>, k: Key, i: int)
    ensures LastWith(cs, k, i) ==> k in Saved(rows, cs) && Saved(rows, cs)[k] == cs[i]
    ensures !Holds(cs, k) ==> (k in Saved(rows, cs) <==> k in rows) && (k in rows ==> Saved(rows, cs)[k] == rows[k])
  {
    if cs != [] {
      var n := |cs| - 1;
      LastWriteStays(rows, cs[..n], k, i);
      HoldsAppend(cs[..n], cs[n]);
      assert cs == cs[..n] + [cs[n]];
    }
  }

  lemma {:induction false} FirstWithAppend(cs: seq<Candle>, c: Candle, k: Key)
    ensures FirstWith(cs + [c], k) == if FirstWith(cs, k).Some? then FirstWith(cs, k) else if KeyOf(c) == k then Some(c) else None
  {
    if cs == [] {
      assert cs + [c] == [c];
    } else {
      FirstWithAppend(cs[1..], c, k);
      assert (cs + [c])[1..] == cs[1..] + [c];
    }
  }

  /** The new candles have distinct keys: the keys of the batch not reported as existing, each with
      its first candle. */
  lemma {:induction false} FirstNewIs(cs: seq<Candle>, existing: set<Key>, k: Key)
    ensures DistinctKeys(FirstNew(cs, existing))
    ensures Holds(FirstNew(cs, existing), k) <==> FirstWith(cs, k).Some? && k !in existing
    ensures forall i :: 0 <= i < |FirstNew(cs, existing)| && KeyOf(FirstNew(cs, existing)[i]) == k
                        ==> FirstWith(cs, k) == Some(FirstNew(cs, existing)[i])
  {
    if cs != [] {
      var n := |cs| - 1;
      FirstNewIs(cs[..n], existing, k);
      FirstWithAppend(cs[..n], cs[n], k);
      assert cs == cs[..n] + [cs[n]];
      var before := FirstNew(cs[..n], existing);
      HoldsAppend(before, cs[n]);
      FirstNewIs(cs[..n], existing, KeyOf(cs[n]));
    }
  }

  /** The keys an additive save writes: those in the batch that its range query did not report. */
  ghost predicate Written(rows: Table, cs: seq<Candle>, k: Key) {
    cs != [] && FirstWith(cs, k).Some? && k !in Existing(rows, cs)
  }

  /** Every row after an additive save of any batch. */
  lemma AdditiveRow(rows: Table, cs: seq<Candle>, k: Key)
    ensures var after := Saved(rows, Added(rows, cs));
            && (k in after <==> k in rows || FirstWith(cs, k).Some?)
            && (k in after ==> after[k] == if Written(rows, cs, k) then FirstWith(cs, k).value else rows[k])
  {
    if cs == [] {
    } else {
      FirstNewIs(cs, Existing(rows, cs), k);
      SavedLookup(rows, Added(rows, cs), k);
    }
  }

  lemma {:induction false} FirstWithSome(cs: seq<Candle>, k: Key) returns (i: nat)
    requires FirstWith(cs, k).Some?
    ensures i < |cs| && KeyOf(cs[i]) == k && FirstWith(cs, k) == Some(cs[i])
  {
    if KeyOf(cs[0]) == k {
      i := 0;
    } else {
      var j := FirstWithSome(cs[1..], k);
      i := j + 1;
    }
  }

  /** In a batch of one series the range query reports every stored key of the batch. */
  lemma StoredIsReported(rows: Table, cs: seq<Candle>, k: Key)
    requires OneSeries(cs) && k in rows && FirstWith(cs, k).Some?
    ensures k in Existing(rows, cs)
  {
    var i := FirstWithSome(cs, k);
    InRange(cs, i);
  }

  ghost predicate KeepsOldRows(rows: Table, cs: seq<Candle>) {
    forall k :: k in rows ==> k in Saved(rows, Added(rows, cs)) && Saved(rows, Added(rows, cs))[k] == rows[k]
  }

  /** Additive: no stored row changes, every key of the batch that was missing gets its first candle,
      and no other row appears. */
  lemma AdditiveKeepsOldRows(rows: Table, cs: seq<Candle>)
    requires OneSeries(cs)
    ensures KeepsOldRows(rows, cs)
    ensures forall k :: k !in rows ==> (k in Saved(rows, Added(rows, cs)) <==> FirstWith(cs, k).Some?)
    ensures forall k :: k !in rows && FirstWith(cs, k).Some? ==> Saved(rows, Added(rows, cs))[k] == FirstWith(cs, k).value
  {
    forall k
      ensures k in Saved(rows, Added(rows, cs)) <==> k in rows || FirstWith(cs, k).Some?
      ensures k in rows ==> Saved(rows, Added(rows, cs))[k] == rows[k]
      ensures k !in rows && FirstWith(cs, k).Some? ==> Saved(rows, Added(rows, cs))[k] == FirstWith(cs, k).value
    {
      AdditiveRow(rows, cs, k);
      if k in rows && FirstWith(cs, k).Some? {
        StoredIsReported(rows, cs, k);
      }
    }
  }

  /** A stored row the batch offers with other contents under a key outside the range query. */
  ghost predicate Clobbered(rows: Table, cs: seq<Candle>, k: Key) {
    k in rows && Written(rows, cs, k) && FirstWith(cs, k).value != rows[k]
  }

  /** For any batch, mixed series included: old rows survive exactly when no stored key outside the
      first candle's series is offered with other contents. */
  lemma KeepsOldRowsExactly(rows: Table, cs: seq<Candle>)
    ensures KeepsOldRows(rows, cs) <==> forall k :: !Clobbered(rows, cs, k)
  {
    forall k
      ensures k in rows ==>
                (k in Saved(rows, Added(rows, cs)) && Saved(rows, Added(rows, cs))[k] == rows[k] <==> !Clobbered(rows, cs, k))
    {
      AdditiveRow(rows, cs, k);
    }
    if KeepsOldRows(rows, cs) {
      forall k
        ensures !Clobbered(rows, cs, k)
      {
      }
    }
  }

  /** Only a candle of another series than the batch's first can be clobbered. */
  lemma ClobberedIsForeign(rows: Table, cs: seq<Candle>, k: Key)
    requires Clobbered(rows, cs, k)
    ensures k.instrument != cs[0].instrument || k.interval != cs[0].interval
  {
    var i := FirstWithSome(cs, k);
    InRange(cs, i);
  }

  /** A batch of two series does overwrite: the second candle's stored row is lost. */
  lemma MixedBatchOverwrites(first: Candle, other: Candle, stored: Candle)
    requires KeyOf(first) != KeyOf(other) && KeyOf(stored) == KeyOf(other) && stored != other
    requires first.instrument != other.instrument
    ensures var rows := map[KeyOf(stored) := stored];
            KeyOf(stored) in rows && !KeepsOldRows(rows, [first, other])
  {
    var rows, cs, k := map[KeyOf(stored) := stored], [first, other], KeyOf(other);
    assert cs[1..] == [other];
    assert FirstWith(cs, k) == FirstWith([other], k) == Some(other);
    assert Clobbered(rows, cs, k);
    KeepsOldRowsExactly(rows, cs);
  }

  /** Repeating a batch of one series adds nothing. */
  lemma RepeatAddsNothing(rows: Table, cs: seq<Candle>)
    requires OneSeries(cs)
    ensures Added(Saved(rows, Added(rows, cs)), cs) == []
  {
    var after := Saved(rows, Added(rows, cs));
    if cs == [] {
    } else if Added(after, cs) != [] {
      var c := Added(after, cs)[0];
      FirstNewIs(cs, Existing(after, cs), KeyOf(c));
      assert Holds(Added(after, cs), KeyOf(c));
      AdditiveRow(rows, cs, KeyOf(c));
      StoredIsReported(after, cs, KeyOf(c));
      assert false;
    }
  }

  lemma OneSeriesParts(a: seq<Candle>, b: seq<Candle>)
    requires OneSeries(a + b)
    ensures OneSeries(a) && OneSeries(b)
  {
    forall i | 0 <= i < |a|
      ensures a[i].instrument == a[0].instrument && a[i].interval == a[0].interval
    {
      assert (a + b)[i] == a[i] && (a + b)[0] == a[0];
    }
    forall i | 0 <= i < |b|
      ensures b[i].instrument == b[0].instrument && b[i].interval == b[0].interval
    {
      assert (a + b)[|a| + i] == b[i] && (a + b)[|a|] == b[0];
    }
  }

  lemma {:induction false} FirstWithJoin(a: seq<Candle>, b: seq<Candle>, k: Key)
    ensures FirstWith(a + b, k) == if FirstWith(a, k).Some? then FirstWith(a, k) else FirstWith(b, k)
  {
    if a == [] {
      assert a + b == b;
    } else {
      FirstWithJoin(a[1..], b, k);
      assert (a + b)[1..] == a[1..] + b;
    }
  }

  /** Overlapping downloads: saving one batch and then another of the series gives the rows of saving
      their concatenation, so chunk boundaries do not show in the store. */
  lemma ChunksCompose(rows: Table, a: seq<Candle>, b: seq<Candle>)
    requires OneSeries(a + b)
    ensures var once := Saved(rows, Added(rows, a));
            Saved(once, Added(once, b)) == Saved(rows, Added(rows, a + b))
  {
    var once := Saved(rows, Added(rows, a));
    var twice, joined := Saved(once, Added(once, b)), Saved(rows, Added(rows, a + b));
    OneSeriesParts(a, b);
    AdditiveKeepsOldRows(rows, a);
    AdditiveKeepsOldRows(once, b);
    AdditiveKeepsOldRows(rows, a + b);
    forall k
      ensures k in twice <==> k in joined
      ensures k in joined ==> twice[k] == joined[k]
    {
      FirstWithJoin(a, b, k);
      AdditiveRow(rows, a, k);
      AdditiveRow(once, b, k);
      AdditiveRow(rows, a + b, k);
    }
  }
}
