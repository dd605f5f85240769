/** The day replay of the raw Strategy C family: one trade at a time, a daily cap, and the
    candidate rows picked out of the raw ones. */
module Replay {
  import opened Common
  import opened Lifecycle
  import opened LifecycleProperties

  /** The triggers one completed setup bar offers, CALL first; None where a feature is missing,
      the setup does not match or no trigger was found. */
  datatype Setup = Setup(call: Option<Trigger>, put: Option<Trigger>)

  datatype Row = Row(trigger: Trigger, candidate: bool, lifecycle: Lifecycle)

  datatype Report = Report(active: bool, rows: seq<Row>, candidates: seq<Row>)

  /** The frozen candidate guard. */
  predicate MatchesCandidate(t: Trigger) {
    && t.delayMinutes.Some? && t.riskAtr.Some? && t.separationAtr.Some?
    && t.delayMinutes.value <= 2.0 && t.riskAtr.value >= 0.90 && t.separationAtr.value <= 1.80
  }

  predicate Blocked(blockedUntil: Option<int>, t: Trigger) {
    blockedUntil.Some? && t.entryEnd < blockedUntil.value
  }

  function TriggerFor(s: Setup, d: Direction): Option<Trigger> {
    if d == Call then s.call else s.put
  }

  predicate Takes(blockedUntil: Option<int>, t: Option<Trigger>) {
    t.Some? && !Blocked(blockedUntil, t.value)
  }

  /** The trigger a setup contributes: the first one that is not blocked. */
  function Taken(blockedUntil: Option<int>, s: Setup): Option<Trigger> {
    if Takes(blockedUntil, s.call) then s.call
    else if Takes(blockedUntil, s.put) then s.put
    else None
  }

  function RowFor(t: Trigger, bars: seq<Bar>, c: Config, asOf: int): Row
    requires Risk(t) > 0.0
  {
    Row(t, MatchesCandidate(t), LifecycleAt(t, bars, c, asOf).value)
  }

  function BlockedAfter(rows: seq<Row>): Option<int> {
    if rows != [] && rows[|rows| - 1].lifecycle.Resolved? then Some(rows[|rows| - 1].lifecycle.exitTime) else None
  }

  predicate HasOpen(rows: seq<Row>) {
    rows != [] && rows[|rows| - 1].lifecycle.Open?
  }

  /** The row a setup offers, if any. An unlabelable trigger fails. */
  function Offer(blockedUntil: Option<int>, s: Setup, bars: seq<Bar>, c: Config, asOf: int): Result<Option<Row>, LifecycleError> {
    var t := Taken(blockedUntil, s);
    if t == None then Ok(None)
    else if Risk(t.value) <= 0.0 then Err(RiskNotPositive)
    else Ok(Some(RowFor(t.value, bars, c, asOf)))
  }

  /** One setup's effect on the selection: nothing once a trade is open or the cap is reached. */
  function Select(rows: seq<Row>, s: Setup, bars: seq<Bar>, c: Config, asOf: int): Result<seq<Row>, LifecycleError> {
    if |rows| >= c.maxTradesPerDay || HasOpen(rows) then Ok(rows)
    else
      var offer := Offer(BlockedAfter(rows), s, bars, c, asOf);
      if offer.Err? then Err(offer.error)
      else if offer.value == None then Ok(rows)
      else Ok(rows + [offer.value.value])
  }

  /** The rows taken from the setups. An unlabelable trigger fails the whole replay. */
  function RowsOf(setups: seq<Setup>, bars: seq<Bar>, c: Config, asOf: int): Result<seq<Row>, LifecycleError> {
    if setups == [] then Ok([])
    else
      var before := RowsOf(setups[..|setups| - 1], bars, c, asOf);
      if before.Err? then before else Select(before.value, setups[|setups| - 1], bars, c, asOf)
  }

  function Candidates(rows: seq<Row>): seq<Row> {
    if rows == [] then []
    else Candidates(rows[..|rows| - 1]) + (if rows[|rows| - 1].candidate then [rows[|rows| - 1]] else [])
  }

  lemma RowsStep(setups: seq<Setup>, i: nat, bars: seq<Bar>, c: Config, asOf: int)
    requires i < |setups|
    ensures var before := RowsOf(setups[..i], bars, c, asOf);
            RowsOf(setups[..i + 1], bars, c, asOf)
            == if before.Err? then before else Select(before.value, setups[i], bars, c, asOf)
  {
    assert setups[..i + 1][..i] == setups[..i];
  }

  lemma CandidatesAppend(rows: seq<Row>, row: Row)
    ensures Candidates(rows + [row]) == Candidates(rows) + if row.candidate then [row] else []
  {
    assert (rows + [row])[..|rows|] == rows;
  }

  /** A full, failed or open selection takes nothing from later setups. */
  lemma {:induction false} SelectionIsFinal(setups: seq<Setup>, i: nat, bars: seq<Bar>, c: Config, asOf: int)
    requires i <= |setups|
    requires var r := RowsOf(setups[..i], bars, c, asOf);
             i == |setups| || r.Err? || |r.value| >= c.maxTradesPerDay || HasOpen(r.value)
    ensures RowsOf(setups, bars, c, asOf) == RowsOf(setups[..i], bars, c, asOf)
  {
    if i == |setups| {
      assert setups[..i] == setups;
    } else {
      var n := |setups| - 1;
      assert setups[..n][..i] == setups[..i];
      SelectionIsFinal(setups[..n], i, bars, c, asOf);
    }
  }

  method AddRow(rows: seq<Row>, candidates: seq<Row>, row: Row)
      returns (rows': seq<Row>, candidates': seq<Row>, blockedUntil: Option<int>)
    requires candidates == Candidates(rows)
    ensures rows' == rows + [row] && candidates' == Candidates(rows') && blockedUntil == BlockedAfter(rows')
  {
    CandidatesAppend(rows, row);
    rows' := rows + [row];
    candidates' := if row.candidate then candidates + [row] else candidates;
    blockedUntil := if row.lifecycle.Resolved? then Some(row.lifecycle.exitTime) else None;
  }

  /** The inner loop over the two directions, up to its `break`. */
  method FirstUnblocked(setup: Setup, blockedUntil: Option<int>) returns (taken: Option<Trigger>)
    ensures taken == Taken(blockedUntil, setup)
  {
    var directions := [Call, Put];
    for d := 0 to 2
      invariant d >= 1 ==> !Takes(blockedUntil, setup.call)
      invariant d == 2 ==> !Takes(blockedUntil, setup.put)
    {
      var trigger := TriggerFor(setup, directions[d]);
      if trigger == None {
        continue;
      }
      if Blocked(blockedUntil, trigger.value) {
        continue;
      }
      return trigger;
    }
    return None;
  }

  /** The row one setup contributes, if any. */
  method TakeRow(setup: Setup, blockedUntil: Option<int>, bars: seq<Bar>, c: Config, asOf: int)
      returns (row: Result<Option<Row>, LifecycleError>)
    ensures row == Offer(blockedUntil, setup, bars, c, asOf)
  {
    var trigger := FirstUnblocked(setup, blockedUntil);
    if trigger == None {
      return Ok(None);
    }
    var lifecycle := RunLifecycle(trigger.value, bars, c, asOf);
    if lifecycle.Err? {
      return Err(lifecycle.error);
    }
    return Ok(Some(Row(trigger.value, MatchesCandidate(trigger.value), lifecycle.value)));
  }

  method ReplayToAsOf(setups: seq<Setup>, bars: seq<Bar>, c: Config, asOf: int)
      returns (report: Result<Report, LifecycleError>)
    ensures var rows := RowsOf(setups, bars, c, asOf);
            report == if rows.Err? then Err(rows.error)
                      else Ok(Report(HasOpen(rows.value), rows.value, Candidates(rows.value)))
  {
    var rows: seq<Row>, candidates: seq<Row> := [], [];
    var blockedUntil: Option<int> := None;
    var i := 0;
    while i < |setups| && |rows| < c.maxTradesPerDay && !HasOpen(rows)
      invariant 0 <= i <= |setups|
      invariant RowsOf(setups[..i], bars, c, asOf) == Ok(rows)
      invariant candidates == Candidates(rows) && blockedUntil == BlockedAfter(rows)
    {
      RowsStep(setups, i, bars, c, asOf);
      var row := TakeRow(setups[i], blockedUntil, bars, c, asOf);
      i := i + 1;
      if row.Err? {
        SelectionIsFinal(setups, i, bars, c, asOf);
        return Err(row.error);
      }
      if row.value.Some? {
        rows, candidates, blockedUntil := AddRow(rows, candidates, row.value.value);
      }
    }
    SelectionIsFinal(setups, i, bars, c, asOf);
    return Ok(Report(HasOpen(rows), rows, candidates));
  }

  // ---- what every replay satisfies ----

  /** The setups name the rows they were taken from, in order. */
  ghost predicate TakenInOrder(setups: seq<Setup>, rows: seq<Row>, source: seq<nat>) {
    && |source| == |rows|
    && (forall k :: 0 <= k < |source| ==> source[k] < |setups| && Some(rows[k].trigger) in {setups[source[k]].call, setups[source[k]].put})
    && (forall j, k :: 0 <= j < k < |source| ==> source[j] < source[k])
  }

  ghost predicate OneAtATime(rows: seq<Row>) {
    forall j, k :: 0 <= j < k < |rows| ==>
      rows[j].lifecycle.Resolved? && rows[j].lifecycle.exitTime <= rows[k].trigger.entryEnd
  }

  ghost predicate RowsFaithful(rows: seq<Row>, bars: seq<Bar>, c: Config, asOf: int) {
    forall k :: 0 <= k < |rows| ==>
      Risk(rows[k].trigger) > 0.0 && rows[k] == RowFor(rows[k].trigger, bars, c, asOf)
  }

  lemma OneMoreTaken(setups: seq<Setup>, rows: seq<Row>, row: Row, source: seq<nat>)
    requires setups != [] && TakenInOrder(setups[..|setups| - 1], rows, source)
    requires Some(row.trigger) in {setups[|setups| - 1].call, setups[|setups| - 1].put}
    ensures TakenInOrder(setups, rows + [row], source + [|setups| - 1])
  {
    var n := |setups| - 1;
    assert forall k :: 0 <= k < n ==> setups[..n][k] == setups[k];
  }

  lemma AppendIsSerial(before: seq<Row>, row: Row)
    requires OneAtATime(before)
    requires before != [] ==>
               var last := before[|before| - 1];
               last.lifecycle.Resolved? && last.trigger.entryEnd <= last.lifecycle.exitTime <= row.trigger.entryEnd
    ensures OneAtATime(before + [row])
  {
  }

  lemma LastExitOrdersNext(before: seq<Row>, t: Trigger, bars: seq<Bar>, c: Config, asOf: int)
    requires ProperBars(bars) && RowsFaithful(before, bars, c, asOf)
    requires before != [] && !HasOpen(before) && !Blocked(BlockedAfter(before), t)
    ensures var last := before[|before| - 1];
            last.lifecycle.Resolved? && last.trigger.entryEnd <= last.lifecycle.exitTime <= t.entryEnd
  {
    ExitTimeInRange(before[|before| - 1].trigger, bars, c, asOf);
  }

  /** Over a whole replay: trades never overlap, number at most the daily cap, only the last can be
      open, and each row is the lifecycle of a trigger some setup offered, one row a setup. */
  lemma {:induction false} ReplayIsSerial(setups: seq<Setup>, bars: seq<Bar>, c: Config, asOf: int) returns (source: seq<nat>)
    requires ProperBars(bars) && RowsOf(setups, bars, c, asOf).Ok?
    ensures var rows := RowsOf(setups, bars, c, asOf).value;
            && |rows| <= Max(0, c.maxTradesPerDay)
            && OneAtATime(rows) && RowsFaithful(rows, bars, c, asOf) && TakenInOrder(setups, rows, source)
  {
    if setups == [] {
      source := [];
    } else {
      var n := |setups| - 1;
      source := ReplayIsSerial(setups[..n], bars, c, asOf);
      var before := RowsOf(setups[..n], bars, c, asOf).value;
      var rows := RowsOf(setups, bars, c, asOf).value;
      if rows == before {
        assert forall k :: 0 <= k < n ==> setups[..n][k] == setups[k];
      } else {
        var row := RowFor(Taken(BlockedAfter(before), setups[n]).value, bars, c, asOf);
        if before != [] {
          LastExitOrdersNext(before, row.trigger, bars, c, asOf);
        }
        AppendIsSerial(before, row);
        OneMoreTaken(setups, before, row, source);
        source := source + [n];
      }
    }
  }

  lemma CountOfLast(rows: seq<Row>, last: Row, r: Row)
    ensures multiset(rows + [last])[r] == multiset(rows)[r] + if last == r then 1 else 0
  {
  }

  /** The candidate rows are exactly the raw rows that match, each as often as it occurs. */
  lemma {:induction false} CandidatesAreTheMatches(rows: seq<Row>, r: Row)
    ensures multiset(Candidates(rows))[r] == if r.candidate then multiset(rows)[r] else 0
  {
    if rows != [] {
      var n := |rows| - 1;
      CandidatesAreTheMatches(rows[..n], r);
      CountOfLast(rows[..n], rows[n], r);
      CountOfLast(Candidates(rows[..n]), rows[n], r);
      assert rows == rows[..n] + [rows[n]];
    }
  }

  /** Nothing eligible is passed over: a setup that contributes no row met a full or open selection,
      or offered only blocked triggers. */
  lemma GreedySelection(setups: seq<Setup>, i: nat, bars: seq<Bar>, c: Config, asOf: int)
    requires i < |setups| && RowsOf(setups[..i + 1], bars, c, asOf).Ok?
    ensures var before, after := RowsOf(setups[..i], bars, c, asOf), RowsOf(setups[..i + 1], bars, c, asOf);
            && before.Ok?
            && (after == before <==> |before.value| >= c.maxTradesPerDay || HasOpen(before.value)
                                     || (!Takes(BlockedAfter(before.value), setups[i].call) && !Takes(BlockedAfter(before.value), setups[i].put)))
  {
    RowsStep(setups, i, bars, c, asOf);
    var rows := RowsOf(setups[..i], bars, c, asOf).value;
    assert forall row: Row :: |rows + [row]| != |rows|;
  }

  /** A row is a candidate exactly when its trigger came within two minutes of the setup, its risk is at least nine
      tenths of an ATR and the averages are at most 1.8 ATR apart, all three known. */
  ghost predicate CandidateGuard(t: Trigger) {
    exists delay, risk, separation ::
      && t.delayMinutes == Some(delay) && t.riskAtr == Some(risk) && t.separationAtr == Some(separation)
      && delay <= 2.0 && 10.0 * risk >= 9.0 && 5.0 * separation <= 9.0
  }

  /** In every replay the candidate entries are exactly the rows the frozen guard admits, each as often as it occurs. */
  lemma CandidatesPassTheGuard(setups: seq<Setup>, bars: seq<Bar>, c: Config, asOf: int, k: nat)
    requires ProperBars(bars) && RowsOf(setups, bars, c, asOf).Ok? && k < |RowsOf(setups, bars, c, asOf).value|
    ensures var rows := RowsOf(setups, bars, c, asOf).value; var row := rows[k];
            multiset(Candidates(rows))[row] == if CandidateGuard(row.trigger) then multiset(rows)[row] else 0
  {
    var rows := RowsOf(setups, bars, c, asOf).value;
    var source := ReplayIsSerial(setups, bars, c, asOf);
    CandidatesAreTheMatches(rows, rows[k]);
    var t := rows[k].trigger;
    if MatchesCandidate(t) {
      assert t.delayMinutes == Some(t.delayMinutes.value) && t.riskAtr == Some(t.riskAtr.value)
          && t.separationAtr == Some(t.separationAtr.value);
    }
  }

  /** A trigger may be taken from the exit of the trade before it on, its moment included; of two such triggers of
      one setup the CALL is taken. */
  lemma CallGoesFirst(rows: seq<Row>, s: Setup, bars: seq<Bar>, c: Config, asOf: int)
    requires |rows| < c.maxTradesPerDay && (rows == [] || rows[|rows| - 1].lifecycle.Resolved?)
    requires forall t :: Some(t) in {s.call, s.put} ==> Risk(t) > 0.0
    ensures var free := (t: Option<Trigger>) =>
              t.Some? && (rows == [] || rows[|rows| - 1].lifecycle.exitTime <= t.value.entryEnd);
            Select(rows, s, bars, c, asOf)
            == Ok(if free(s.call) then rows + [RowFor(s.call.value, bars, c, asOf)]
                  else if free(s.put) then rows + [RowFor(s.put.value, bars, c, asOf)]
                  else rows)
  {
  }
}
