/** Resampling five-minute candles to fifteen minutes, and its agreement with building
    fifteen-minute candles directly. */
module Resample {
  import opened Common
  import opened CandleBuilder
  import opened CandleProperties
  import opened StableSort

  const FIVE := 300_000_000
  const FIFTEEN := 900_000_000

  /** The fifteen-minute bar a candle falls in. */
  function Bucket(c: Candle, g: Interval): int {
    g.bar(c.start)
  }

  // ---- the resampling loop ----

  function HighestOf(cs: seq<Candle>): real
    requires cs != []
  {
    var n := |cs| - 1;
    if n == 0 then cs[0].high else MaxReal(HighestOf(cs[..n]), cs[n].high)
  }

  function LowestOf(cs: seq<Candle>): real
    requires cs != []
  {
    var n := |cs| - 1;
    if n == 0 then cs[0].low else MinReal(LowestOf(cs[..n]), cs[n].low)
  }

  /** The bar a stretch of candles amounts to. */
  function Joined(cs: seq<Candle>, start: int): Active
    requires cs != []
  {
    var last := cs[|cs| - 1];
    Active(start, cs[0].open, HighestOf(cs), LowestOf(cs), last.close, TotalVolume(cs), last.openInterest, last.source)
  }

  /** Exactly the three five-minute bars of the bucket, in order. */
  predicate Whole(cs: seq<Candle>, start: int) {
    |cs| == 3 && cs[0].start == start && cs[1].start == start + FIVE && cs[2].start == start + 2 * FIVE
  }

  function BucketCandle(cs: seq<Candle>, start: int, instrument: string): Candle
    requires cs != []
  {
    var j := Joined(cs, start);
    Candle(instrument, 15, start, start + FIFTEEN, j.open, j.high, j.low, j.close, j.volume, j.openInterest, "BREEZE")
  }

  /** What the bars of a bucket are sorted by. */
  function StartOf(c: Candle): int {
    c.start
  }

  function Group(cs: seq<Candle>, bucket: int, g: Interval): seq<Candle> {
    if cs == [] then []
    else Group(cs[..|cs| - 1], bucket, g) + if Bucket(cs[|cs| - 1], g) == bucket then [cs[|cs| - 1]] else []
  }

  function InsertKey(keys: seq<int>, k: int): seq<int> {
    if keys == [] || keys[|keys| - 1] < k then keys + [k]
    else if keys[|keys| - 1] == k then keys
    else InsertKey(keys[..|keys| - 1], k) + [keys[|keys| - 1]]
  }

  /** The bucket starts in ascending order. */
  function Buckets(cs: seq<Candle>, g: Interval): seq<int> {
    if cs == [] then [] else InsertKey(Buckets(cs[..|cs| - 1], g), Bucket(cs[|cs| - 1], g))
  }

  /** The candle of one bucket's bars, unless a bar is missing or extra. */
  function FromGroup(group: seq<Candle>, bucket: int, instrument: string): seq<Candle> {
    var sorted := SortedBy(group, StartOf);
    if Whole(sorted, bucket) then [BucketCandle(sorted, bucket, instrument)] else []
  }

  function FromBucket(cs: seq<Candle>, bucket: int, instrument: string, g: Interval): seq<Candle> {
    FromGroup(Group(cs, bucket, g), bucket, instrument)
  }

  function FromBuckets(cs: seq<Candle>, keys: seq<int>, instrument: string, g: Interval): seq<Candle> {
    if keys == [] then []
    else FromBuckets(cs, keys[..|keys| - 1], instrument, g) + FromBucket(cs, keys[|keys| - 1], instrument, g)
  }

  function Resampled(cs: seq<Candle>, instrument: string, g: Interval): seq<Candle> {
    FromBuckets(cs, Buckets(cs, g), instrument, g)
  }

  lemma {:induction false} InsertKeyElements(keys: seq<int>, k: int)
    ensures forall x :: x in InsertKey(keys, k) <==> x in keys || x == k
  {
    if keys != [] {
      InsertKeyElements(keys[..|keys| - 1], k);
      assert keys == keys[..|keys| - 1] + [keys[|keys| - 1]];
    }
  }

  lemma {:induction false} GroupOfAbsent(cs: seq<Candle>, bucket: int, g: Interval)
    requires bucket !in Buckets(cs, g)
    ensures Group(cs, bucket, g) == []
  {
    if cs != [] {
      var n := |cs| - 1;
      InsertKeyElements(Buckets(cs[..n], g), Bucket(cs[n], g));
      GroupOfAbsent(cs[..n], bucket, g);
    }
  }

  /** The table holds every bucket's candles, in arrival order. */
  ghost predicate Grouped(buckets: map<int, seq<Candle>>, keys: seq<int>, cs: seq<Candle>, g: Interval) {
    && (forall b :: b in keys ==> b in buckets)
    && (forall b :: b in buckets ==> b in keys && buckets[b] == Group(cs, b, g))
  }

  /** The first loop: candles by bucket. */
  method GroupByBucket(candles: seq<Candle>, g: Interval) returns (buckets: map<int, seq<Candle>>, keys: seq<int>)
    ensures keys == Buckets(candles, g) && Grouped(buckets, keys, candles, g)
  {
    buckets, keys := map[], [];
    for i := 0 to |candles|
      invariant keys == Buckets(candles[..i], g) && Grouped(buckets, keys, candles[..i], g)
    {
      var c := candles[i];
      assert candles[..i + 1][..i] == candles[..i];
      var bucket := Bucket(c, g);
      if bucket !in buckets {
        GroupOfAbsent(candles[..i], bucket, g);
        buckets := buckets[bucket := []];
      }
      buckets := buckets[bucket := buckets[bucket] + [c]];
      InsertKeyElements(keys, bucket);
      keys := InsertKey(keys, bucket);
    }
    assert candles[..|candles|] == candles;
  }

  lemma FromBucketsStep(cs: seq<Candle>, keys: seq<int>, i: nat, instrument: string, g: Interval)
    requires i < |keys|
    ensures FromBuckets(cs, keys[..i + 1], instrument, g)
         == FromBuckets(cs, keys[..i], instrument, g) + FromGroup(Group(cs, keys[i], g), keys[i], instrument)
  {
    assert keys[..i + 1][..i] == keys[..i];
  }

  method ResampleBy(candles: seq<Candle>, instrument: string, g: Interval) returns (res: seq<Candle>)
    ensures res == Resampled(candles, instrument, g)
  {
    var buckets, keys := GroupByBucket(candles, g);
    res := [];
    for i := 0 to |keys|
      invariant res == FromBuckets(candles, keys[..i], instrument, g)
    {
      var start := keys[i];
      assert start in keys;
      FromBucketsStep(candles, keys, i, instrument, g);
      res := res + FromGroup(buckets[start], start, instrument);
    }
    assert keys[..|keys|] == keys;
  }

  method ResampleTo15m(candles: seq<Candle>, instrument: string) returns (res: seq<Candle>)
    ensures res == Resampled(candles, instrument, Grid(15))
  {
    res := ResampleBy(candles, instrument, Grid(15));
  }

  // ---- on candles that come in order, off a five-minute grid ----

  ghost predicate InFifteen(g: Interval, t: int) {
    g.bar(t) % FIFTEEN == 0 && g.bar(t) <= t < g.bar(t) + FIFTEEN
  }

  /** The grid's bars are the multiples of fifteen minutes. */
  ghost predicate Fifteens(g: Interval) {
    forall t :: InFifteen(g, t)
  }

  ghost predicate OnGrid(cs: seq<Candle>) {
    && (forall i, j :: 0 <= i < j < |cs| ==> cs[i].start < cs[j].start)
    && (forall i :: 0 <= i < |cs| ==> cs[i].start % FIVE == 0)
  }

  function Multiple(x: int, d: int): (q: int)
    requires d > 0 && x % d == 0
    ensures x == q * d
  {
    x / d
  }

  /** A five-minute mark belongs to a quarter of an hour exactly when it is one of its three. */
  lemma FivesOfFifteen(start: int, bar: int, bucket: int)
    requires start % FIVE == 0 && bar % FIFTEEN == 0 && bar <= start < bar + FIFTEEN
    ensures bar == bucket <==> (bucket % FIFTEEN == 0 && start in {bucket, bucket + FIVE, bucket + 2 * FIVE})
  {
    var p, q := Multiple(start, 300_000_000), Multiple(bar, 900_000_000);
    if bucket % 900_000_000 == 0 {
      var r := Multiple(bucket, 900_000_000);
      assert 3 * q <= p < 3 * q + 3;
      assert q == r <==> p == 3 * r || p == 3 * r + 1 || p == 3 * r + 2;
    }
  }

  lemma BucketOf(c: Candle, bucket: int, g: Interval)
    requires Fifteens(g) && c.start % FIVE == 0
    ensures Bucket(c, g) == bucket <==> bucket % FIFTEEN == 0 && c.start in {bucket, bucket + FIVE, bucket + 2 * FIVE}
  {
    assert InFifteen(g, c.start);
    FivesOfFifteen(c.start, g.bar(c.start), bucket);
  }

  /** Resampling one candle at a time. */
  function Merged(cs: seq<Candle>, instrument: string, g: Interval): seq<Candle> {
    if cs == [] then []
    else Merged(cs[..|cs| - 1], instrument, g) + FromBucket(cs, Bucket(cs[|cs| - 1], g), instrument, g)
  }

  lemma OnGridAppend(cs: seq<Candle>, c: Candle)
    requires OnGrid(cs) && c.start % FIVE == 0
    ensures (forall x :: x in cs ==> x.start < c.start) ==> OnGrid(cs + [c])
  {
    assert forall i :: 0 <= i < |cs| ==> cs[i] in cs;
  }

  lemma {:induction false} GroupIsOrdered(cs: seq<Candle>, bucket: int, g: Interval)
    requires OnGrid(cs)
    ensures OnGrid(Group(cs, bucket, g))
    ensures forall c :: c in Group(cs, bucket, g) <==> c in cs && Bucket(c, g) == bucket
  {
    if cs != [] {
      var n := |cs| - 1;
      GroupIsOrdered(cs[..n], bucket, g);
      assert cs == cs[..n] + [cs[n]];
      OnGridAppend(Group(cs[..n], bucket, g), cs[n]);
    }
  }

  /** The last key is the largest. */
  ghost predicate EndsHighest(keys: seq<int>, k: int) {
    && keys != [] && keys[|keys| - 1] == k
    && forall i :: 0 <= i < |keys| - 1 ==> keys[i] < k
  }

  lemma InsertHighest(keys: seq<int>, last: int, k: int)
    requires EndsHighest(keys, last) && last <= k
    ensures InsertKey(keys, k) == if last == k then keys else keys + [k]
    ensures EndsHighest(InsertKey(keys, k), k)
  {
  }

  lemma LaterBucketIsLarger(c: Candle, d: Candle, g: Interval)
    requires Fifteens(g) && c.start <= d.start
    ensures Bucket(c, g) <= Bucket(d, g)
  {
    assert InFifteen(g, c.start) && InFifteen(g, d.start);
  }

  lemma {:induction false} BucketsAscend(cs: seq<Candle>, g: Interval)
    requires Fifteens(g) && OnGrid(cs) && cs != []
    ensures EndsHighest(Buckets(cs, g), Bucket(cs[|cs| - 1], g))
  {
    var n := |cs| - 1;
    if n > 0 {
      BucketsAscend(cs[..n], g);
      LaterBucketIsLarger(cs[n - 1], cs[n], g);
      InsertHighest(Buckets(cs[..n], g), Bucket(cs[n - 1], g), Bucket(cs[n], g));
    } else {
      assert Buckets(cs[..0], g) == [];
    }
  }

  lemma {:induction false} EarlierBucketsUnchanged(cs: seq<Candle>, keys: seq<int>, instrument: string, g: Interval)
    requires cs != [] && forall i :: 0 <= i < |keys| ==> keys[i] != Bucket(cs[|cs| - 1], g)
    ensures FromBuckets(cs, keys, instrument, g) == FromBuckets(cs[..|cs| - 1], keys, instrument, g)
  {
    if keys != [] {
      var n := |keys| - 1;
      EarlierBucketsUnchanged(cs, keys[..n], instrument, g);
      assert Group(cs, keys[n], g) == Group(cs[..|cs| - 1], keys[n], g);
    }
  }

  /** A bucket that receives another bar was not whole before. */
  lemma GrowingBucketWasNotWhole(cs: seq<Candle>, g: Interval)
    requires Fifteens(g) && OnGrid(cs) && cs != []
    ensures var b := Bucket(cs[|cs| - 1], g); !Whole(Group(cs[..|cs| - 1], b, g), b)
  {
    var n, b := |cs| - 1, Bucket(cs[|cs| - 1], g);
    GroupIsOrdered(cs[..n], b, g);
    BucketOf(cs[n], b, g);
    var before := Group(cs[..n], b, g);
    if |before| == 3 {
      assert before[2] in before;
      assert before[2].start < cs[n].start;
    }
  }

  lemma FromOrderedBucket(cs: seq<Candle>, bucket: int, instrument: string, g: Interval)
    requires OnGrid(cs)
    ensures FromBucket(cs, bucket, instrument, g)
         == if Whole(Group(cs, bucket, g), bucket) then [BucketCandle(Group(cs, bucket, g), bucket, instrument)] else []
  {
    GroupIsOrdered(cs, bucket, g);
    OrderedIsSorted(Group(cs, bucket, g), StartOf);
  }

  lemma NewBucket(cs: seq<Candle>, instrument: string, g: Interval)
    requires cs != [] && var b := Bucket(cs[|cs| - 1], g); var keys := Buckets(cs[..|cs| - 1], g);
             Buckets(cs, g) == keys + [b] && b !in keys
    ensures var b := Bucket(cs[|cs| - 1], g);
            Resampled(cs, instrument, g) == Resampled(cs[..|cs| - 1], instrument, g) + FromBucket(cs, b, instrument, g)
  {
    var keys := Buckets(cs[..|cs| - 1], g);
    EarlierBucketsUnchanged(cs, keys, instrument, g);
    assert Buckets(cs, g)[..|keys|] == keys;
  }

  lemma SameBucket(cs: seq<Candle>, instrument: string, g: Interval)
    requires cs != [] && var b := Bucket(cs[|cs| - 1], g); var keys := Buckets(cs[..|cs| - 1], g);
             Buckets(cs, g) == keys && EndsHighest(keys, b) && FromBucket(cs[..|cs| - 1], b, instrument, g) == []
    ensures var b := Bucket(cs[|cs| - 1], g);
            Resampled(cs, instrument, g) == Resampled(cs[..|cs| - 1], instrument, g) + FromBucket(cs, b, instrument, g)
  {
    var keys := Buckets(cs, g);
    EarlierBucketsUnchanged(cs, keys[..|keys| - 1], instrument, g);
  }

  /** The newest candle only affects its own bucket, which no earlier candle had completed. */
  lemma NewestAffectsItsBucket(cs: seq<Candle>, instrument: string, g: Interval)
    requires Fifteens(g) && OnGrid(cs) && cs != []
    ensures var b := Bucket(cs[|cs| - 1], g);
            Resampled(cs, instrument, g) == Resampled(cs[..|cs| - 1], instrument, g) + FromBucket(cs, b, instrument, g)
  {
    var n := |cs| - 1;
    var pre, b := cs[..n], Bucket(cs[n], g);
    if n == 0 {
      assert Buckets(pre, g) == [];
      NewBucket(cs, instrument, g);
    } else {
      BucketsAscend(pre, g);
      LaterBucketIsLarger(pre[n - 1], cs[n], g);
      InsertHighest(Buckets(pre, g), Bucket(pre[n - 1], g), b);
      if Bucket(pre[n - 1], g) == b {
        GrowingBucketWasNotWhole(cs, g);
        FromOrderedBucket(pre, b, instrument, g);
        SameBucket(cs, instrument, g);
      } else {
        NewBucket(cs, instrument, g);
      }
    }
  }

  lemma MergedStep(cs: seq<Candle>, instrument: string, g: Interval)
    requires cs != []
    ensures Merged(cs, instrument, g)
         == Merged(cs[..|cs| - 1], instrument, g) + FromBucket(cs, Bucket(cs[|cs| - 1], g), instrument, g)
  {
  }

  lemma {:induction false} ResampledIsMerged(cs: seq<Candle>, instrument: string, g: Interval)
    requires Fifteens(g) && OnGrid(cs)
    ensures Resampled(cs, instrument, g) == Merged(cs, instrument, g)
  {
    if cs == [] {
      assert Buckets(cs, g) == [];
    } else {
      var n := |cs| - 1;
      ResampledIsMerged(cs[..n], instrument, g);
      NewestAffectsItsBucket(cs, instrument, g);
      MergedStep(cs, instrument, g);
    }
  }

  // ---- resampling commutes with building ----

  /** What relates a five-minute grid to the fifteen-minute grid over it. */
  ghost predicate Nested(five: Interval, fifteen: Interval, t: int) {
    five.bar(t) % FIVE == 0 && fifteen.bar(five.bar(t)) == fifteen.bar(t)
  }

  ghost predicate Grids(five: Interval, fifteen: Interval) {
    && Proper(five) && Proper(fifteen) && Fifteens(fifteen) && five.minutes == 5 && fifteen.minutes == 15
    && forall t :: Nested(five, fifteen, t)
  }

  lemma FloorOf(t: int)
    ensures BarStart(t, 5) == t / FIVE * FIVE && BarStart(t, 15) == t / FIFTEEN * FIFTEEN
  {
    var h, m := t / HOUR, t % HOUR / MINUTE;
    assert t / FIVE == h * 12 + m / 5;
    assert t / FIFTEEN == h * 4 + m / 15;
  }

  lemma FloorsNest(t: int, s: int, s': int, u: int)
    requires s == t / FIVE * FIVE && s' == t / FIFTEEN * FIFTEEN && u == s / FIFTEEN * FIFTEEN
    ensures s % FIVE == 0 && u == s' && s' % FIFTEEN == 0 && s' <= t < s' + FIFTEEN
  {
    var q := t / FIVE;
    assert t / FIFTEEN == q / 3 && q * FIVE / FIFTEEN == q / 3;
  }

  lemma BuilderGrids()
    ensures Grids(Grid(5), Grid(15))
  {
    GridIsProper(5);
    GridIsProper(15);
    var five, fifteen := Grid(5), Grid(15);
    assert forall t :: five.bar(t) == BarStart(t, 5) && fifteen.bar(t) == BarStart(t, 15);
    forall t ensures InFifteen(fifteen, t) && Nested(five, fifteen, t) {
      FloorOf(t);
      FloorOf(five.bar(t));
      FloorsNest(t, five.bar(t), fifteen.bar(t), fifteen.bar(five.bar(t)));
    }
  }

  ghost predicate HasBar(cs: seq<Candle>, start: int) {
    exists c :: c in cs && c.start == start
  }

  /** All three five-minute bars of a fifteen-minute bar exist. */
  ghost predicate AllThree(cs: seq<Candle>, start: int) {
    HasBar(cs, start) && HasBar(cs, start + FIVE) && HasBar(cs, start + 2 * FIVE)
  }

  function Rebadged(c: Candle, instrument: string): Candle {
    c.(instrument := instrument, source := "BREEZE")
  }

  /** The fifteen-minute candles whose three five-minute bars exist, under the resampler's badge. */
  ghost function Covered(cs15: seq<Candle>, cs5: seq<Candle>, instrument: string): seq<Candle> {
    if cs15 == [] then []
    else
      var n := |cs15| - 1;
      Covered(cs15[..n], cs5, instrument) + if AllThree(cs5, cs15[n].start) then [Rebadged(cs15[n], instrument)] else []
  }

  lemma HasBarAppend(cs: seq<Candle>, c: Candle, start: int)
    ensures HasBar(cs + [c], start) <==> HasBar(cs, start) || c.start == start
  {
    assert forall x :: x in cs + [c] <==> x in cs || x == c;
  }

  lemma {:induction false} CoveredIgnoresLater(cs15: seq<Candle>, cs5: seq<Candle>, c: Candle, instrument: string)
    requires forall i :: 0 <= i < |cs15| ==> cs15[i].start + 2 * FIVE < c.start
    ensures Covered(cs15, cs5 + [c], instrument) == Covered(cs15, cs5, instrument)
  {
    if cs15 != [] {
      var n := |cs15| - 1;
      CoveredIgnoresLater(cs15[..n], cs5, c, instrument);
      HasBarAppend(cs5, c, cs15[n].start);
      HasBarAppend(cs5, c, cs15[n].start + FIVE);
      HasBarAppend(cs5, c, cs15[n].start + 2 * FIVE);
    }
  }

  lemma AscendingTriple(group: seq<Candle>, b: int, i: nat, j: nat, k: nat)
    requires OnGrid(group) && i < |group| && j < |group| && k < |group|
    requires group[i].start == b && group[j].start == b + FIVE && group[k].start == b + 2 * FIVE
    requires forall m :: 0 <= m < |group| ==> group[m].start in {b, b + FIVE, b + 2 * FIVE}
    ensures Whole(group, b)
  {
    assert i < j < k;
    assert i == 0 by {
      assert group[0].start in {b, b + FIVE, b + 2 * FIVE};
    }
    assert j == 1 by {
      assert group[1].start in {b, b + FIVE, b + 2 * FIVE};
    }
    assert k == 2 by {
      assert group[2].start in {b, b + FIVE, b + 2 * FIVE};
    }
    var m := |group| - 1;
    assert group[m].start in {b, b + FIVE, b + 2 * FIVE};
    assert group[2].start <= group[m].start;
  }

  lemma ThreeInOrder(group: seq<Candle>, b: int, x: Candle, y: Candle, z: Candle, g: Interval)
    requires Fifteens(g) && OnGrid(group) && forall c :: c in group ==> Bucket(c, g) == b
    requires x in group && x.start == b && y in group && y.start == b + FIVE && z in group && z.start == b + 2 * FIVE
    ensures Whole(group, b)
  {
    forall i | 0 <= i < |group|
      ensures group[i].start in {b, b + FIVE, b + 2 * FIVE}
    {
      assert group[i] in group;
      BucketOf(group[i], b, g);
    }
    var i :| 0 <= i < |group| && group[i] == x;
    var j :| 0 <= j < |group| && group[j] == y;
    var k :| 0 <= k < |group| && group[k] == z;
    AscendingTriple(group, b, i, j, k);
  }

  /** A bucket is whole exactly when its three bars exist. */
  lemma WholeMeansAllThree(cs: seq<Candle>, b: int, g: Interval)
    requires Fifteens(g) && OnGrid(cs) && b % FIFTEEN == 0
    ensures Whole(Group(cs, b, g), b) <==> AllThree(cs, b)
  {
    var group := Group(cs, b, g);
    GroupIsOrdered(cs, b, g);
    if Whole(group, b) {
      assert group[0] in group && group[1] in group && group[2] in group;
    }
    if AllThree(cs, b) {
      var x :| x in cs && x.start == b;
      var y :| y in cs && y.start == b + FIVE;
      var z :| z in cs && z.start == b + 2 * FIVE;
      BucketOf(x, b, g);
      BucketOf(y, b, g);
      BucketOf(z, b, g);
      ThreeInOrder(group, b, x, y, z, g);
    }
  }

  // ---- the resampled candles of any list, sorted or not ----

  lemma {:induction false} GroupHolds(cs: seq<Candle>, b: int, g: Interval, c: Candle)
    ensures multiset(Group(cs, b, g))[c] == if Bucket(c, g) == b then multiset(cs)[c] else 0
  {
    if cs != [] {
      var n := |cs| - 1;
      GroupHolds(cs[..n], b, g, c);
      assert cs == cs[..n] + [cs[n]];
    }
  }

  lemma {:induction false} FromBucketsHolds(cs: seq<Candle>, keys: seq<int>, instrument: string, g: Interval, d: Candle)
    ensures d in FromBuckets(cs, keys, instrument, g) <==> exists b :: b in keys && d in FromBucket(cs, b, instrument, g)
  {
    if keys != [] {
      var n := |keys| - 1;
      FromBucketsHolds(cs, keys[..n], instrument, g, d);
      assert keys == keys[..n] + [keys[n]];
    }
  }

  /** The group is these three candles, in some order: the bucket's three five-minute bars and no other. */
  ghost predicate Trio(group: seq<Candle>, b: int, x: Candle, y: Candle, z: Candle) {
    multiset(group) == multiset{x, y, z} && x.start == b && y.start == b + 300_000_000 && z.start == b + 600_000_000
  }

  lemma SortedTrio(group: seq<Candle>, b: int, x: Candle, y: Candle, z: Candle)
    requires Trio(group, b, x, y, z)
    ensures SortedBy(group, StartOf) == [x, y, z]
  {
    var sorted := SortedBy(group, StartOf);
    SortedHolds(group, StartOf);
    SortedIsOrdered(group, StartOf);
    assert |multiset(sorted)| == 3;
    assert multiset(sorted) == multiset{x, y, z};
    assert x in sorted && y in sorted && z in sorted;
    assert StartOf(sorted[0]) <= StartOf(sorted[1]) <= StartOf(sorted[2]);
  }

  lemma WholeIsTrio(group: seq<Candle>, b: int)
    requires Whole(SortedBy(group, StartOf), b)
    ensures var s := SortedBy(group, StartOf); Trio(group, b, s[0], s[1], s[2])
  {
    var s := SortedBy(group, StartOf);
    SortedHolds(group, StartOf);
    assert s == [s[0], s[1], s[2]];
  }

  /** Fifteen minutes from the three bars of a bucket: first open, highest high, lowest low, last close and open
      interest, summed volume. */
  function Quarter(b: int, instrument: string, x: Candle, y: Candle, z: Candle): Candle {
    Candle(instrument, 15, b, b + 900_000_000, x.open, MaxReal(MaxReal(x.high, y.high), z.high),
           MinReal(MinReal(x.low, y.low), z.low), z.close, x.volume + y.volume + z.volume, z.openInterest, "BREEZE")
  }

  lemma TrioCandle(b: int, instrument: string, x: Candle, y: Candle, z: Candle)
    ensures BucketCandle([x, y, z], b, instrument) == Quarter(b, instrument, x, y, z)
  {
    var three := [x, y, z];
    assert three[..2] == [x, y] && [x, y][..1] == [x];
    assert HighestOf(three) == MaxReal(HighestOf([x, y]), z.high) && HighestOf([x, y]) == MaxReal(HighestOf([x]), y.high);
    assert LowestOf(three) == MinReal(LowestOf([x, y]), z.low) && LowestOf([x, y]) == MinReal(LowestOf([x]), y.low);
    assert TotalVolume(three) == TotalVolume([x, y]) + z.volume && TotalVolume([x, y]) == TotalVolume([x]) + y.volume;
    assert [x][..0] == [];
  }

  lemma FromBucketExactly(cs: seq<Candle>, b: int, instrument: string, g: Interval, d: Candle)
    ensures d in FromBucket(cs, b, instrument, g) <==>
              exists x, y, z :: Trio(Group(cs, b, g), b, x, y, z) && d == Quarter(b, instrument, x, y, z)
  {
    var group := Group(cs, b, g);
    if Whole(SortedBy(group, StartOf), b) {
      WholeIsTrio(group, b);
      var s := SortedBy(group, StartOf);
      TrioCandle(b, instrument, s[0], s[1], s[2]);
      assert s == [s[0], s[1], s[2]];
    }
    forall x, y, z | Trio(group, b, x, y, z)
      ensures FromBucket(cs, b, instrument, g) == [Quarter(b, instrument, x, y, z)]
    {
      SortedTrio(group, b, x, y, z);
      TrioCandle(b, instrument, x, y, z);
    }
  }

  ghost predicate Ascending(keys: seq<int>) {
    forall i, j :: 0 <= i < j < |keys| ==> keys[i] < keys[j]
  }

  lemma {:induction false} InsertKeyAscends(keys: seq<int>, k: int)
    requires Ascending(keys)
    ensures Ascending(InsertKey(keys, k))
  {
    if keys != [] && keys[|keys| - 1] > k {
      var n := |keys| - 1;
      InsertKeyAscends(keys[..n], k);
      InsertKeyElements(keys[..n], k);
      forall i | 0 <= i < |InsertKey(keys[..n], k)|
        ensures InsertKey(keys[..n], k)[i] < keys[n]
      {
        assert InsertKey(keys[..n], k)[i] in InsertKey(keys[..n], k);
      }
    }
  }

  lemma {:induction false} BucketsAreAscending(cs: seq<Candle>, g: Interval)
    ensures Ascending(Buckets(cs, g))
  {
    if cs != [] {
      BucketsAreAscending(cs[..|cs| - 1], g);
      InsertKeyAscends(Buckets(cs[..|cs| - 1], g), Bucket(cs[|cs| - 1], g));
    }
  }

  ghost predicate StartsAscend(ds: seq<Candle>) {
    forall i, j :: 0 <= i < j < |ds| ==> ds[i].start < ds[j].start
  }

  lemma {:induction false} FromBucketsAscend(cs: seq<Candle>, keys: seq<int>, instrument: string, g: Interval)
    requires Ascending(keys)
    ensures forall d :: d in FromBuckets(cs, keys, instrument, g) ==> d.start in keys
    ensures StartsAscend(FromBuckets(cs, keys, instrument, g))
  {
    if keys != [] {
      var n := |keys| - 1;
      var before, last := FromBuckets(cs, keys[..n], instrument, g), FromBucket(cs, keys[n], instrument, g);
      FromBucketsAscend(cs, keys[..n], instrument, g);
      assert forall k :: k in keys[..n] ==> k in keys && k < keys[n];
      assert forall i :: 0 <= i < |before| ==> before[i] in before;
      assert forall d :: d in last ==> d.start == keys[n];
    }
  }

  /** The resampled candles come in ascending order of their starts, at most one a bucket. */
  lemma ResampledAscend(cs: seq<Candle>, instrument: string, g: Interval)
    ensures StartsAscend(Resampled(cs, instrument, g))
  {
    BucketsAreAscending(cs, g);
    FromBucketsAscend(cs, Buckets(cs, g), instrument, g);
  }

  /** Whatever the order the candles come in: a fifteen-minute candle is made exactly for each bucket whose candles
      are its three five-minute bars and no others, and it is their quarter of an hour. */
  lemma ResampledExactly(cs: seq<Candle>, instrument: string, g: Interval, d: Candle)
    ensures d in Resampled(cs, instrument, g) <==>
              exists b, x, y, z :: Trio(Group(cs, b, g), b, x, y, z) && d == Quarter(b, instrument, x, y, z)
  {
    FromBucketsHolds(cs, Buckets(cs, g), instrument, g, d);
    forall b
      ensures d in FromBucket(cs, b, instrument, g) <==>
                exists x, y, z :: Trio(Group(cs, b, g), b, x, y, z) && d == Quarter(b, instrument, x, y, z)
      ensures d in FromBucket(cs, b, instrument, g) ==> b in Buckets(cs, g)
    {
      FromBucketExactly(cs, b, instrument, g, d);
      if b !in Buckets(cs, g) {
        GroupOfAbsent(cs, b, g);
      }
    }
  }
}
