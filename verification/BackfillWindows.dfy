/** Contract windows and request chunks: the two ways the backfill cuts a date range. */
module BackfillWindows {
  import opened Common
  import opened BackfillCalendar

  const MAX_INTERVALS := 1000
  const INTERVALS_PER_DAY := 78
  const MAX_DAYS := 10

  datatype Period = Period(start: int, end: int, expiry: int)

  datatype Chunk = Chunk(start: int, end: int)

  datatype RangeError = EndPrecedesStart

  // ---- stretches of days laid end to end ----

  /** The stretches follow each other without gap or overlap from lo to hi; none when hi < lo. */
  ghost predicate EndToEnd<T>(xs: seq<T>, from: T -> int, to: T -> int, lo: int, hi: int) {
    && (xs == [] <==> hi < lo)
    && (xs != [] ==> from(xs[0]) == lo && to(xs[|xs| - 1]) == hi)
    && (forall i :: 0 <= i < |xs| ==> from(xs[i]) <= to(xs[i]))
    && (forall i :: 0 < i < |xs| ==> from(xs[i]) == to(xs[i - 1]) + 1)
  }

  lemma {:induction false} FirstIsLowest<T>(xs: seq<T>, from: T -> int, to: T -> int, lo: int, hi: int, i: nat)
    requires EndToEnd(xs, from, to, lo, hi) && i < |xs|
    ensures lo <= from(xs[i])
  {
    if i > 0 {
      FirstIsLowest(xs, from, to, lo, hi, i - 1);
    }
  }

  /** They come in order, inside the range. */
  lemma {:induction false} StretchesAscend<T>(xs: seq<T>, from: T -> int, to: T -> int, lo: int, hi: int)
    requires EndToEnd(xs, from, to, lo, hi)
    ensures forall i, j :: 0 <= i < j < |xs| ==> to(xs[i]) < from(xs[j])
    ensures forall i :: 0 <= i < |xs| ==> lo <= from(xs[i]) && to(xs[i]) <= hi
  {
    if |xs| > 1 {
      var n := |xs| - 1;
      StretchesAscend(xs[..n], from, to, lo, to(xs[n - 1])) by {
        FirstIsLowest(xs, from, to, lo, hi, n - 1);
      }
      assert forall i :: 0 <= i < n ==> xs[..n][i] == xs[i];
    }
  }

  /** Every day of the range falls in a stretch. */
  lemma {:induction false} DayInStretch<T>(xs: seq<T>, from: T -> int, to: T -> int, lo: int, hi: int, day: int) returns (i: nat)
    requires EndToEnd(xs, from, to, lo, hi) && lo <= day <= hi
    ensures i < |xs| && from(xs[i]) <= day <= to(xs[i])
  {
    i := |xs| - 1;
    if from(xs[i]) > day {
      FirstIsLowest(xs, from, to, lo, hi, i - 1);
      i := DayInStretch(xs[..i], from, to, lo, to(xs[i - 1]), day);
    }
  }

  function PeriodStart(p: Period): int { p.start }

  function PeriodEnd(p: Period): int { p.end }

  ghost predicate Tile(ps: seq<Period>, lo: int, hi: int) {
    EndToEnd(ps, PeriodStart, PeriodEnd, lo, hi)
  }

  /** `_month_starts`: the months from the first day's month to the last one begun by `end`. */
  method MonthsFrom(c: Calendar, first: int, end: int) returns (months: seq<int>)
    requires Proper(c)
    ensures forall i :: 0 <= i < |months| ==> months[i] == first + i && c.start(months[i]) <= end
    ensures end < c.start(first + |months|)
  {
    months := [];
    var cursor := first;
    while c.start(cursor) <= end
      invariant cursor == first + |months|
      invariant forall i :: 0 <= i < |months| ==> months[i] == first + i && c.start(months[i]) <= end
      decreases end - c.start(cursor)
    {
      months := months + [cursor];
      assert ProperMonth(c, cursor);
      cursor := cursor + 1;
    }
  }

  /** The i-th expiry considered, counting from the month before the range. */
  ghost predicate Own(c: Calendar, first: int, end: int, expiries: seq<int>, i: nat)
    requires i < |expiries|
  {
    expiries[i] == c.expiry(first - 1 + i) && (i > 0 ==> c.start(first - 1 + i) <= end)
  }

  ghost predicate AllOwn(c: Calendar, first: int, end: int, expiries: seq<int>) {
    forall i: nat :: i < |expiries| ==> Own(c, first, end, expiries, i)
  }

  /** `resolve_monthly_futures_expiries`, before its last line filters the list. */
  method ExpiriesFrom(c: Calendar, first: int, end: int) returns (expiries: seq<int>)
    requires Proper(c)
    ensures expiries != [] && AllOwn(c, first, end, expiries) && end < c.start(first - 1 + |expiries|)
  {
    var months := MonthsFrom(c, first, end);
    var all := [first - 1] + months;
    expiries := [];
    for i := 0 to |all|
      invariant |expiries| == i && AllOwn(c, first, end, expiries)
    {
      assert all[i] == first - 1 + i && (i > 0 ==> c.start(all[i]) <= end);
      var expiry := c.expiry(all[i]);
      ghost var before := expiries;
      if i > 0 {
        assert Own(c, first, end, expiries, i - 1);
        MonthsAscend(c, first - 2 + i, first - 1 + i);
      }
      if expiries == [] || expiries[|expiries| - 1] != expiry {
        expiries := expiries + [expiry];
      }
      forall j: nat | j < |expiries| ensures Own(c, first, end, expiries, j) {
        assert j < i ==> Own(c, first, end, before, j);
      }
    }
  }

  /** The list the source filters to: expiries from 31 days before the range to 31 after it. */
  function Near(expiries: seq<int>, start: int, end: int): seq<int> {
    if expiries == [] then []
    else
      var last := expiries[|expiries| - 1];
      Near(expiries[..|expiries| - 1], start, end) + if start - 31 <= last <= end + 31 then [last] else []
  }

  lemma AllButLast(s: seq<int>)
    requires |s| > 1
    ensures s[..|s| - 1] + [s[|s| - 1]] == s && s[..|s| - 1][1..] + [s[|s| - 1]] == s[1..]
  {
  }

  /** Filtering only ever drops the previous month's expiry: the range's own are all near it. */
  lemma {:induction false} NearKeepsOwn(c: Calendar, first: int, start: int, end: int, expiries: seq<int>)
    requires Proper(c) && c.start(first) <= start < c.start(first + 1) && start <= end && expiries != []
    requires AllOwn(c, first, end, expiries)
    ensures Near(expiries, start, end) == expiries || Near(expiries, start, end) == expiries[1..]
  {
    var n := |expiries| - 1;
    assert Own(c, first, end, expiries, n);
    assert ProperMonth(c, first) && ProperMonth(c, first - 1 + n);
    if n > 0 {
      assert AllOwn(c, first, end, expiries[..n]) by {
        forall i: nat | i < n ensures Own(c, first, end, expiries[..n], i) {
          assert Own(c, first, end, expiries, i);
        }
      }
      NearKeepsOwn(c, first, start, end, expiries[..n]);
      MonthsAscend(c, first, first - 1 + n);
      AllButLast(expiries);
    } else {
      assert expiries == [expiries[0]] && expiries[1..] == [];
      assert Near(expiries[..0], start, end) == [];
    }
  }

  /** The window of each contract: its days have its expiry as the earliest one not before them. */
  ghost predicate Faithful(c: Calendar, p: Period) {
    forall day :: p.start <= day <= p.end ==> EarliestNotBefore(c, p.expiry, day)
  }

  /** The state of the loop: windows so far, up to the day before `next`, which follows the last
      expiry considered. */
  ghost predicate UpTo(c: Calendar, ps: seq<Period>, start: int, end: int, k: int) {
    && Tile(ps, start, if ps == [] then start - 1 else c.expiry(k))
    && (ps != [] ==> ps[|ps| - 1].expiry == c.expiry(k) < end)
    && (ps == [] ==> c.expiry(k) < start)
    && (forall i :: 0 <= i < |ps| ==> Faithful(c, ps[i]))
  }

  /** One more expiry adds one more window, or none while expiries precede the range. */
  lemma AddPeriod(c: Calendar, ps: seq<Period>, start: int, end: int, k: int)
    requires Proper(c) && UpTo(c, ps, start, end, k - 1) && start <= end
    ensures var lo := if ps == [] then start else c.expiry(k - 1) + 1; var hi := Min(end, c.expiry(k));
            && (lo > hi ==> ps == [] && hi < end && UpTo(c, ps, start, end, k))
            && (lo <= hi ==> var ps' := ps + [Period(lo, hi, c.expiry(k))];
                 && Tile(ps', start, hi) && (forall i :: 0 <= i < |ps'| ==> Faithful(c, ps'[i]))
                 && (hi < end ==> UpTo(c, ps', start, end, k)))
  {
    MonthsAscend(c, k - 1, k);
    var lo := if ps == [] then start else c.expiry(k - 1) + 1;
    var hi := Min(end, c.expiry(k));
    if lo <= hi {
      forall day | lo <= day <= hi ensures EarliestNotBefore(c, c.expiry(k), day) {
        EarliestIs(c, k, day);
      }
    }
  }

  ghost predicate ExpiryAt(c: Calendar, expiries: seq<int>, offset: int, j: nat)
    requires j < |expiries|
  {
    expiries[j] == c.expiry(offset + j)
  }

  /** The expiries are those of consecutive months, from `offset` on. */
  ghost predicate Consecutive(c: Calendar, expiries: seq<int>, offset: int) {
    forall j: nat :: j < |expiries| ==> ExpiryAt(c, expiries, offset, j)
  }

  /** The expiries of consecutive months, from the month of `start` or the one before to the month of `end`. */
  ghost predicate Resolves(c: Calendar, first: int, end: int, expiries: seq<int>, offset: int) {
    && first - 1 <= offset <= first && offset + |expiries| > first
    && Consecutive(c, expiries, offset)
    && c.start(offset + |expiries| - 1) <= end < c.start(offset + |expiries|)
  }

  /** `resolve_monthly_futures_expiries`. */
  method ResolveExpiries(c: Calendar, first: int, start: int, end: int) returns (expiries: seq<int>)
    requires Proper(c) && c.start(first) <= start < c.start(first + 1)
    ensures start <= end ==> exists offset :: Resolves(c, first, end, expiries, offset)
  {
    var all := ExpiriesFrom(c, first, end);
    expiries := Near(all, start, end);
    if start <= end {
      ghost var offset := first - 1 + |all| - |expiries|;
      NearKeepsOwn(c, first, start, end, all);
      forall j: nat | j < |expiries| ensures ExpiryAt(c, expiries, offset, j) {
        assert Own(c, first, end, all, j + |all| - |expiries|);
      }
      assert |all| > 1;
      assert Own(c, first, end, all, |all| - 1);
      assert Resolves(c, first, end, expiries, offset);
    }
  }

  /** The windows cover the days from `start` to the end of the range or the expiry of its last
      month, whichever is first. */
  ghost predicate Covers(c: Calendar, ps: seq<Period>, start: int, end: int, last: int) {
    c.start(last) <= end < c.start(last + 1) && Tile(ps, start, Min(end, c.expiry(last)))
  }

  /** The state of the loop after the expiry of month `k`, when the range ends in month `last`. */
  ghost predicate LoopState(c: Calendar, ps: seq<Period>, start: int, end: int, k: int, last: int, done: bool) {
    if end < start then ps == []
    else if done then Covers(c, ps, start, end, last) && forall j :: 0 <= j < |ps| ==> Faithful(c, ps[j])
    else UpTo(c, ps, start, end, k)
  }

  /** The loop body: one more expiry, and whether the range is covered. */
  method AddWindow(c: Calendar, ps: seq<Period>, start: int, end: int, expiry: int, ghost k: int, ghost last: int)
      returns (ps': seq<Period>, done: bool)
    requires LoopState(c, ps, start, end, k - 1, last, false)
    requires Proper(c) && (start <= end ==> expiry == c.expiry(k) && k <= last && c.start(last) <= end < c.start(last + 1))
    ensures LoopState(c, ps', start, end, k, last, done)
    ensures start <= end && k == last ==> LoopState(c, ps', start, end, k, last, true)
  {
    if start <= end {
      AddPeriod(c, ps, start, end, k);
      MonthsAscend(c, k, last);
    }
    var periodStart := if ps == [] then start else ps[|ps| - 1].expiry + 1;
    var periodEnd := Min(end, expiry);
    ps' := ps;
    if periodStart <= periodEnd {
      ps' := ps' + [Period(periodStart, periodEnd, expiry)];
    }
    done := periodEnd >= end;
  }

  /** The loop of `futures_contract_periods` over the resolved expiries. */
  method AddWindows(c: Calendar, start: int, end: int, expiries: seq<int>, ghost offset: int, ghost last: int)
      returns (ps: seq<Period>)
    requires Proper(c) && LoopState(c, [], start, end, offset - 1, last, false)
    requires start <= end ==> Consecutive(c, expiries, offset) && last == offset + |expiries| - 1 >= offset
                              && c.start(last) <= end < c.start(last + 1)
    ensures LoopState(c, ps, start, end, last, last, true)
  {
    ps := [];
    var i, done := 0, false;
    while i < |expiries| && !done
      invariant 0 <= i <= |expiries|
      invariant LoopState(c, ps, start, end, offset + i - 1, last, done)
      invariant start <= end && i == |expiries| ==> LoopState(c, ps, start, end, last, last, true)
    {
      assert start <= end ==> ExpiryAt(c, expiries, offset, i);
      ps, done := AddWindow(c, ps, start, end, expiries[i], offset + i, last);
      i := i + 1;
    }
  }

  lemma NothingBefore(c: Calendar, first: int, start: int, end: int, offset: int)
    requires Proper(c) && c.start(first) <= start <= end && first - 1 <= offset <= first
    ensures UpTo(c, [], start, end, offset - 1)
  {
    MonthsAscend(c, offset - 1, first - 1);
    assert ProperMonth(c, first - 1);
  }

  /** `futures_contract_periods`; `first` is the month of `start`. */
  method ContractPeriods(c: Calendar, first: int, start: int, end: int) returns (ps: seq<Period>)
    requires Proper(c) && c.start(first) <= start < c.start(first + 1)
    ensures end < start ==> ps == []
    ensures start <= end ==> exists last :: Covers(c, ps, start, end, last)
    ensures forall i :: 0 <= i < |ps| ==> Faithful(c, ps[i])
  {
    var expiries := ResolveExpiries(c, first, start, end);
    ghost var offset :| start <= end ==> Resolves(c, first, end, expiries, offset);
    ghost var last := offset + |expiries| - 1;
    if start <= end {
      NothingBefore(c, first, start, end, offset);
    }
    ps := AddWindows(c, start, end, expiries, offset, last);
  }

  /** The windows of the exchange's own calendar. */
  method NseContractPeriods(first: int, start: int, end: int) returns (ps: seq<Period>)
    requires MonthStart(first) <= start < MonthStart(first + 1)
    ensures end < start ==> ps == []
    ensures start <= end ==> exists last :: Covers(NSE, ps, start, end, last)
    ensures forall i :: 0 <= i < |ps| ==> Faithful(NSE, ps[i])
  {
    NseIsProper();
    ps := ContractPeriods(NSE, first, start, end);
  }

  ghost predicate InSome(ps: seq<Period>, day: int) {
    exists i :: 0 <= i < |ps| && ps[i].start <= day <= ps[i].end
  }

  lemma DayInTile(ps: seq<Period>, lo: int, hi: int, day: int)
    requires Tile(ps, lo, hi) && lo <= day <= hi
    ensures InSome(ps, day)
  {
    var i := DayInStretch(ps, PeriodStart, PeriodEnd, lo, hi, day);
    assert ps[i].start <= day <= ps[i].end;
  }

  lemma NothingPast(ps: seq<Period>, lo: int, hi: int, day: int)
    requires Tile(ps, lo, hi) && day > hi
    ensures !InSome(ps, day)
  {
    StretchesAscend(ps, PeriodStart, PeriodEnd, lo, hi);
    forall i | 0 <= i < |ps| ensures ps[i].end <= hi {
      assert PeriodEnd(ps[i]) <= hi;
    }
  }

  /** The windows cover all of the range exactly when it does not run past its last month's expiry. */
  lemma WholeRangeCovered(c: Calendar, ps: seq<Period>, start: int, end: int, last: int)
    requires start <= end && Covers(c, ps, start, end, last)
    ensures (forall day :: start <= day <= end ==> InSome(ps, day)) <==> end <= c.expiry(last)
  {
    if end <= c.expiry(last) {
      forall day | start <= day <= end ensures InSome(ps, day) {
        DayInTile(ps, start, end, day);
      }
    } else {
      NothingPast(ps, start, c.expiry(last), end);
    }
  }

  // ---- request chunks ----

  function ChunkStart(c: Chunk): int { c.start }

  function ChunkEnd(c: Chunk): int { c.end }

  ghost predicate Chunked(cs: seq<Chunk>, lo: int, hi: int, maxDays: int) {
    EndToEnd(cs, ChunkStart, ChunkEnd, lo, hi) && forall i :: 0 <= i < |cs| ==> cs[i].end < cs[i].start + maxDays
  }

  /** `split_date_range`. Below one day a chunk the source's loop would not advance. */
  method SplitDateRange(start: int, end: int, maxDays: int) returns (chunks: Result<seq<Chunk>, RangeError>)
    requires maxDays >= 1
    ensures end < start ==> chunks == Err(EndPrecedesStart)
    ensures start <= end ==> chunks.Ok? && Chunked(chunks.value, start, end, maxDays)
  {
    if end < start {
      return Err(EndPrecedesStart);
    }
    var cs: seq<Chunk> := [];
    var cursor := start;
    while cursor <= end
      invariant start <= cursor <= end + 1 && Chunked(cs, start, cursor - 1, maxDays)
      decreases end + 1 - cursor
    {
      var chunkEnd := Min(end, cursor + maxDays - 1);
      cs := cs + [Chunk(cursor, chunkEnd)];
      cursor := chunkEnd + 1;
    }
    return Ok(cs);
  }

  /** The check that guards each request; with the default chunk length it never fires. */
  predicate TripsLimit(c: Chunk) {
    (c.end - c.start + 1) * INTERVALS_PER_DAY > MAX_INTERVALS
  }

  /** Every day of a chunked range is requested exactly once, and no request trips the limit. */
  lemma EachDayOnce(cs: seq<Chunk>, lo: int, hi: int, day: int)
    requires Chunked(cs, lo, hi, MAX_DAYS) && lo <= day <= hi
    ensures exists i :: 0 <= i < |cs| && cs[i].start <= day <= cs[i].end
    ensures forall i, j :: 0 <= i < j < |cs| ==> !(cs[i].start <= day <= cs[i].end && cs[j].start <= day <= cs[j].end)
    ensures forall i :: 0 <= i < |cs| ==> !TripsLimit(cs[i])
  {
    var k := DayInStretch(cs, ChunkStart, ChunkEnd, lo, hi, day);
    assert cs[k].start <= day <= cs[k].end;
    StretchesAscend(cs, ChunkStart, ChunkEnd, lo, hi);
    forall i, j | 0 <= i < j < |cs|
      ensures cs[i].end < cs[j].start
    {
      assert ChunkEnd(cs[i]) < ChunkStart(cs[j]);
    }
  }
}
