/** Statistics over a run of trades, and the walk-forward split of its sessions. */
module RunStats {
  import opened Common
  import opened Rounding

  // ---- drawdown ----

  function Total(values: seq<real>): real {
    if values == [] then 0.0 else Total(values[..|values| - 1]) + values[|values| - 1]
  }

  lemma {:induction false} TotalSplit(a: seq<real>, b: seq<real>)
    ensures Total(a + b) == Total(a) + Total(b)
  {
    if b == [] {
      assert a + b == a;
    } else {
      TotalSplit(a, b[..|b| - 1]);
      assert (a + b)[..|a + b| - 1] == a + b[..|b| - 1];
    }
  }

  /** The result of the trades from `i` up to `j`. */
  function RunTotal(values: seq<real>, i: nat, j: nat): real
    requires i <= j <= |values|
  {
    Total(values[i..j])
  }

  lemma RunIsDifference(values: seq<real>, i: nat, j: nat)
    requires i <= j <= |values|
    ensures RunTotal(values, i, j) == Total(values[..j]) - Total(values[..i])
  {
    TotalSplit(values[..i], values[i..j]);
    assert values[..i] + values[i..j] == values[..j];
  }

  /** `d` is the result of the worst stretch of consecutive trades, the empty stretch counted. */
  ghost predicate IsWorstRun(values: seq<real>, d: real) {
    && (exists i, j :: 0 <= i <= j <= |values| && d == RunTotal(values, i, j))
    && (forall i, j :: 0 <= i <= j <= |values| ==> d <= RunTotal(values, i, j))
  }

  /** Equity after the first `k` trades. */
  function Equity(values: seq<real>, k: nat): real
    requires k <= |values|
  {
    Total(values[..k])
  }

  lemma EquityNext(values: seq<real>, k: nat)
    requires k < |values|
    ensures Equity(values, k + 1) == Equity(values, k) + values[k]
  {
    assert values[..k + 1][..k] == values[..k];
  }

  ghost predicate IsPeak(values: seq<real>, k: nat, top: nat)
    requires k <= |values|
  {
    top <= k && forall i :: 0 <= i <= k ==> Equity(values, i) <= Equity(values, top)
  }

  ghost predicate IsTrough(values: seq<real>, k: nat, from: nat, to: nat)
    requires k <= |values|
  {
    && from <= to <= k
    && forall i, j :: 0 <= i <= j <= k ==> Equity(values, to) - Equity(values, from) <= Equity(values, j) - Equity(values, i)
  }

  lemma PeakStep(values: seq<real>, k: nat, top: nat) returns (newTop: nat)
    requires k < |values| && IsPeak(values, k, top)
    ensures IsPeak(values, k + 1, newTop)
    ensures Equity(values, newTop) == MaxReal(Equity(values, top), Equity(values, k + 1))
  {
    newTop := if Equity(values, k + 1) > Equity(values, top) then k + 1 else top;
  }

  /** With the peak known, one comparison extends the deepest trough. */
  lemma TroughStep(values: seq<real>, k: nat, top: nat, from: nat, to: nat) returns (newFrom: nat, newTo: nat)
    requires k < |values| && IsPeak(values, k + 1, top) && IsTrough(values, k, from, to)
    ensures IsTrough(values, k + 1, newFrom, newTo)
    ensures Equity(values, newTo) - Equity(values, newFrom)
            == MinReal(Equity(values, to) - Equity(values, from), Equity(values, k + 1) - Equity(values, top))
  {
    if Equity(values, k + 1) - Equity(values, top) < Equity(values, to) - Equity(values, from) {
      newFrom, newTo := top, k + 1;
    } else {
      newFrom, newTo := from, to;
    }
  }

  lemma TroughIsWorstRun(values: seq<real>, from: nat, to: nat)
    requires IsTrough(values, |values|, from, to)
    ensures IsWorstRun(values, Equity(values, to) - Equity(values, from))
  {
    RunIsDifference(values, from, to);
    assert Equity(values, to) - Equity(values, from) == RunTotal(values, from, to);
    forall i: nat, j: nat | i <= j <= |values|
      ensures Equity(values, to) - Equity(values, from) <= RunTotal(values, i, j)
    {
      RunIsDifference(values, i, j);
      assert Equity(values, to) - Equity(values, from) <= Equity(values, j) - Equity(values, i);
    }
  }

  method WorstRun(values: seq<real>) returns (drawdown: real)
    ensures IsWorstRun(values, drawdown)
  {
    var equity, peak := 0.0, 0.0;
    drawdown := 0.0;
    ghost var top: nat, from: nat, to: nat := 0, 0, 0;
    for k := 0 to |values|
      invariant equity == Equity(values, k)
      invariant IsPeak(values, k, top) && peak == Equity(values, top)
      invariant IsTrough(values, k, from, to) && drawdown == Equity(values, to) - Equity(values, from)
    {
      EquityNext(values, k);
      equity := equity + values[k];
      top := PeakStep(values, k, top);
      peak := MaxReal(peak, equity);
      from, to := TroughStep(values, k, top, from, to);
      drawdown := MinReal(drawdown, equity - peak);
    }
    TroughIsWorstRun(values, from, to);
  }

  lemma WorstRunIsUnique(values: seq<real>, d: real, e: real)
    requires IsWorstRun(values, d) && IsWorstRun(values, e)
    ensures d == e
  {
  }

  method MaxDrawdown(values: seq<real>) returns (r: Option<real>)
    ensures r.None? <==> values == []
    ensures r.Some? ==> exists d :: IsWorstRun(values, d)
    ensures r.Some? ==> forall d :: IsWorstRun(values, d) ==> r.value == RoundSix(d)
  {
    if values == [] {
      return None;
    }
    var drawdown := WorstRun(values);
    forall d | IsWorstRun(values, d) ensures d == drawdown {
      WorstRunIsUnique(values, d, drawdown);
    }
    return Some(RoundSix(drawdown));
  }

  /** Never above zero, nor above the result of the whole sequence. */
  lemma WorstRunBounds(values: seq<real>, d: real)
    requires IsWorstRun(values, d)
    ensures d <= 0.0 && d <= Total(values)
    ensures d == 0.0 <==> forall i, j :: 0 <= i <= j <= |values| ==> RunTotal(values, i, j) >= 0.0
  {
    assert RunTotal(values, 0, 0) == 0.0;
    assert values[0..|values|] == values;
    assert RunTotal(values, 0, |values|) == Total(values);
  }

  function Reversed(values: seq<real>): (r: seq<real>)
    ensures |r| == |values|
  {
    if values == [] then [] else [values[|values| - 1]] + Reversed(values[..|values| - 1])
  }

  lemma {:induction false} ReversedSplit(a: seq<real>, b: seq<real>)
    ensures Reversed(a + b) == Reversed(b) + Reversed(a)
  {
    if b == [] {
      assert a + b == a;
    } else {
      ReversedSplit(a, b[..|b| - 1]);
      assert (a + b)[..|a + b| - 1] == a + b[..|b| - 1];
    }
  }

  lemma {:induction false} ReversedTotal(values: seq<real>)
    ensures Total(Reversed(values)) == Total(values)
  {
    if values != [] {
      ReversedTotal(values[..|values| - 1]);
      TotalSplit([values[|values| - 1]], Reversed(values[..|values| - 1]));
    }
  }

  /** The reversed sequence's equity counts back from the end. */
  lemma ReversedEquity(values: seq<real>, k: nat)
    requires k <= |values|
    ensures Equity(Reversed(values), |values| - k) == Total(values) - Equity(values, k)
  {
    var a, b := values[..k], values[k..];
    assert values == a + b;
    TotalSplit(a, b);
    ReversedSplit(a, b);
    ReversedTotal(b);
    assert Reversed(values)[..|b|] == Reversed(b);
  }

  lemma RunFromEquity(values: seq<real>, back: seq<real>, i: nat, j: nat)
    requires i <= j <= |values| == |back|
    requires Equity(back, |values| - i) == Total(values) - Equity(values, i)
    requires Equity(back, |values| - j) == Total(values) - Equity(values, j)
    ensures RunTotal(back, |values| - j, |values| - i) == RunTotal(values, i, j)
  {
    RunIsDifference(values, i, j);
    RunIsDifference(back, |values| - j, |values| - i);
  }

  lemma ReversedRun(values: seq<real>, i: nat, j: nat)
    requires i <= j <= |values|
    ensures RunTotal(Reversed(values), |values| - j, |values| - i) == RunTotal(values, i, j)
  {
    ReversedEquity(values, i);
    ReversedEquity(values, j);
    RunFromEquity(values, Reversed(values), i, j);
  }

  lemma {:induction false} ReversedTwice(values: seq<real>)
    ensures Reversed(Reversed(values)) == values
  {
    if values != [] {
      var n := |values| - 1;
      ReversedTwice(values[..n]);
      ReversedSplit([values[n]], Reversed(values[..n]));
    }
  }

  lemma WorstOfReversed(values: seq<real>, d: real)
    requires IsWorstRun(values, d)
    ensures IsWorstRun(Reversed(values), d)
  {
    var n, reversed := |values|, Reversed(values);
    var i, j :| 0 <= i <= j <= n && d == RunTotal(values, i, j);
    ReversedRun(values, i, j);
    assert d == RunTotal(reversed, n - j, n - i);
    forall k: nat, l: nat | k <= l <= n
      ensures d <= RunTotal(reversed, k, l)
    {
      ReversedRun(values, n - l, n - k);
    }
  }

  /** The drawdown does not tell past from future: the reversed sequence has the same one. */
  lemma DrawdownOfReversed(values: seq<real>, d: real)
    ensures IsWorstRun(Reversed(values), d) <==> IsWorstRun(values, d)
  {
    if IsWorstRun(values, d) {
      WorstOfReversed(values, d);
    }
    if IsWorstRun(Reversed(values), d) {
      WorstOfReversed(Reversed(values), d);
      ReversedTwice(values);
    }
  }

  lemma LastTradeWins(values: seq<real>, x: real, i: nat)
    requires x >= 0.0 && i <= |values| + 1
    ensures RunTotal(values + [x], i, |values| + 1) >= RunTotal(values, Min(i, |values|), |values|)
  {
    if i <= |values| {
      TotalSplit(values[i..], [x]);
      assert (values + [x])[i..|values| + 1] == values[i..] + [x];
      assert Total([x]) == x;
      assert values[i..|values|] == values[i..];
    }
  }

  /** One more trade never hides a drawdown, and a winning one never deepens it. */
  lemma DrawdownOfExtension(values: seq<real>, x: real, d: real, e: real)
    requires IsWorstRun(values, d) && IsWorstRun(values + [x], e)
    ensures e <= d
    ensures x >= 0.0 ==> e == d
  {
    var longer, n := values + [x], |values|;
    forall i: nat, j: nat | i <= j <= n
      ensures RunTotal(longer, i, j) == RunTotal(values, i, j)
    {
      assert longer[i..j] == values[i..j];
    }
    var i, j :| 0 <= i <= j <= n + 1 && e == RunTotal(longer, i, j);
    if x >= 0.0 && j == n + 1 {
      LastTradeWins(values, x, i);
    }
  }

  // ---- losing streaks ----

  ghost predicate AllLosses(values: seq<real>, i: nat, j: nat)
    requires i <= j <= |values|
  {
    forall k :: i <= k < j ==> values[k] < 0.0
  }

  method MaxLosingStreak(values: seq<real>) returns (best: nat)
    ensures exists i, j :: 0 <= i <= j <= |values| && AllLosses(values, i, j) && j - i == best
    ensures forall i, j :: 0 <= i <= j <= |values| && AllLosses(values, i, j) ==> j - i <= best
  {
    var current := 0;
    best := 0;
    ghost var at: nat := 0;
    assert AllLosses(values, 0, 0);
    for k := 0 to |values|
      invariant 0 <= current <= best && current <= k
      invariant AllLosses(values, k - current, k)
      invariant current < k ==> values[k - current - 1] >= 0.0
      invariant at + best <= k && AllLosses(values, at, at + best)
      invariant forall i, j :: 0 <= i <= j <= k && AllLosses(values, i, j) ==> j - i <= best
    {
      if values[k] < 0.0 {
        current := current + 1;
        if current > best {
          at := k + 1 - current;
        }
        best := Max(best, current);
      } else {
        current := 0;
      }
      forall i, j | 0 <= i <= j <= k + 1 && AllLosses(values, i, j)
        ensures j - i <= best
      {
        if j == k + 1 && i < j {
          assert values[k] < 0.0;
          assert i >= k + 1 - current;
        }
      }
    }
  }

  // ---- walk-forward folds ----

  datatype Fold = Fold(train: seq<int>, test: seq<int>)

  ghost predicate Increasing(s: seq<int>) {
    forall i, j :: 0 <= i < j < |s| ==> s[i] < s[j]
  }

  function Insert(u: seq<int>, d: int): (r: seq<int>)
    requires Increasing(u)
    ensures Increasing(r)
    ensures forall x :: x in r <==> x in u || x == d
  {
    if u == [] then [d]
    else if d == u[|u| - 1] then u
    else if d > u[|u| - 1] then u + [d]
    else
      assert u == u[..|u| - 1] + [u[|u| - 1]];
      var r := Insert(u[..|u| - 1], d);
      assert forall i :: 0 <= i < |r| ==> r[i] in r;
      r + [u[|u| - 1]]
  }

  /** `sorted(set(dates))`. */
  function SortedUnique(dates: seq<int>): (u: seq<int>)
    ensures Increasing(u)
    ensures forall d :: d in u <==> d in dates
  {
    if dates == [] then []
    else
      assert dates == dates[..|dates| - 1] + [dates[|dates| - 1]];
      Insert(SortedUnique(dates[..|dates| - 1]), dates[|dates| - 1])
  }

  function FoldAt(u: seq<int>, train: nat, test: nat, cursor: nat): Fold
    requires cursor + train + test <= |u|
  {
    Fold(u[cursor..cursor + train], u[cursor + train..cursor + train + test])
  }

  /** The folds whose training block starts at `cursor` or later. */
  function FoldsFrom(u: seq<int>, train: nat, test: nat, cursor: nat): seq<Fold>
    requires test > 0
    decreases |u| - cursor
  {
    if cursor + train + test <= |u| then [FoldAt(u, train, test, cursor)] + FoldsFrom(u, train, test, cursor + test) else []
  }

  method WalkForwardFolds(dates: seq<int>, trainSessions: int, testSessions: int)
      returns (r: Result<seq<Fold>, string>)
    ensures r.Err? <==> trainSessions < 1 || testSessions < 1
    ensures r.Ok? ==> r.value == FoldsFrom(SortedUnique(dates), trainSessions, testSessions, 0)
  {
    if trainSessions < 1 || testSessions < 1 {
      return Err("train_sessions and test_sessions must be positive");
    }
    var unique := SortedUnique(dates);
    var folds: seq<Fold> := [];
    var cursor := 0;
    while cursor + trainSessions + testSessions <= |unique|
      invariant cursor >= 0
      invariant folds + FoldsFrom(unique, trainSessions, testSessions, cursor)
                == FoldsFrom(unique, trainSessions, testSessions, 0)
      decreases |unique| - cursor
    {
      var train := unique[cursor..cursor + trainSessions];
      var test := unique[cursor + trainSessions..cursor + trainSessions + testSessions];
      folds := folds + [Fold(train, test)];
      cursor := cursor + testSessions;
    }
    return Ok(folds);
  }

  /** Every date used for training lies before every date of its test block, and both blocks are full. */
  ghost predicate TrainsBeforeTest(f: Fold, train: nat, test: nat) {
    && |f.train| == train && |f.test| == test
    && forall a, b :: a in f.train && b in f.test ==> a < b
  }

  lemma {:induction false} FoldsTrainBeforeTest(u: seq<int>, train: nat, test: nat, cursor: nat, k: nat)
    requires Increasing(u) && test > 0 && k < |FoldsFrom(u, train, test, cursor)|
    ensures TrainsBeforeTest(FoldsFrom(u, train, test, cursor)[k], train, test)
    decreases k
  {
    if k > 0 {
      FoldsTrainBeforeTest(u, train, test, cursor + test, k - 1);
    }
  }

  function TestDates(folds: seq<Fold>): seq<int> {
    if folds == [] then [] else folds[0].test + TestDates(folds[1..])
  }

  lemma SliceJoin(u: seq<int>, i: nat, j: nat, k: nat)
    requires i <= j <= k <= |u|
    ensures u[i..j] + u[j..k] == u[i..k]
  {
  }

  lemma TestDatesStep(u: seq<int>, train: nat, test: nat, cursor: nat)
    requires test > 0 && cursor + train + test <= |u|
    ensures TestDates(FoldsFrom(u, train, test, cursor))
            == u[cursor + train..cursor + train + test] + TestDates(FoldsFrom(u, train, test, cursor + test))
  {
    assert FoldsFrom(u, train, test, cursor)[1..] == FoldsFrom(u, train, test, cursor + test);
  }

  /** The test blocks, put end to end, are the sorted dates after the first training block: no date is
      tested twice and none is skipped, save a tail too short for a block. */
  lemma {:induction false} TestBlocksTile(u: seq<int>, train: nat, test: nat, cursor: nat) returns (end: nat)
    requires test > 0 && cursor + train <= |u|
    ensures cursor + train <= end <= |u| && |u| - end < test
    ensures TestDates(FoldsFrom(u, train, test, cursor)) == u[cursor + train..end]
    decreases |u| - cursor
  {
    if cursor + train + test <= |u| {
      end := TestBlocksTile(u, train, test, cursor + test);
      TestDatesStep(u, train, test, cursor);
      SliceJoin(u, cursor + train, cursor + train + test, end);
    } else {
      end := cursor + train;
    }
  }

  lemma QuotientIs(n: nat, d: nat, q: nat, r: nat)
    requires r < d && n == q * d + r
    ensures n / d == q
  {
    ScaledOrder(n / d + 1, q, d);
    ScaledOrder(q + 1, n / d, d);
    assert n == n / d * d + n % d;
  }

  lemma OneBlockMore(n: nat, d: nat)
    requires 0 < d <= n
    ensures n / d == 1 + (n - d) / d
  {
    QuotientIs(n, d, 1 + (n - d) / d, (n - d) % d);
  }

  lemma NoBlock(n: nat, d: nat)
    requires n < d
    ensures n / d == 0
  {
  }

  /** How many folds there are. */
  lemma {:induction false} FoldCount(u: seq<int>, train: nat, test: nat, cursor: nat)
    requires test > 0
    ensures |u| >= cursor + train ==> |FoldsFrom(u, train, test, cursor)| == (|u| - cursor - train) / test
    ensures |u| < cursor + train ==> FoldsFrom(u, train, test, cursor) == []
    decreases |u| - cursor
  {
    if cursor + train + test <= |u| {
      FoldCount(u, train, test, cursor + test);
      OneBlockMore(|u| - cursor - train, test);
    } else if cursor + train <= |u| {
      NoBlock(|u| - cursor - train, test);
    }
  }

  lemma BlockStart(test: nat, k: nat, cursor: nat)
    requires k > 0
    ensures cursor + test + (k - 1) * test == cursor + k * test
  {
  }

  /** Fold `k` trains on the `train` dates from the k-th multiple of `test` on, and tests on the next `test` dates. */
  lemma {:induction false} FoldsAre(u: seq<int>, train: nat, test: nat, cursor: nat, k: nat)
    requires test > 0 && k < |FoldsFrom(u, train, test, cursor)|
    ensures var start := cursor + k * test;
            && start + train + test <= |u|
            && FoldsFrom(u, train, test, cursor)[k] == Fold(u[start..start + train], u[start + train..start + train + test])
    decreases k
  {
    if k > 0 {
      FoldsAre(u, train, test, cursor + test, k - 1);
      BlockStart(test, k, cursor);
    }
  }
}
