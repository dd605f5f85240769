/** Submitting to and polling the AI paper-trade journal, over whole runs. */
module AiJournal {
  import opened Common
  import opened Rounding
  import opened AiTrade

  /** One `submit` call: the clock readings it takes (daily check, quote, insert) never go back. */
  datatype Submission = Submission(
    signalId: string,
    instrument: string,
    quantity: int,
    checkTime: int,
    quoteTime: int,
    leg: Option<Leg>,
    id: string,
    insertTime: int)

  function Find(journal: seq<Trade>, signalId: string): Option<Trade> {
    if journal == [] then None
    else if journal[0].signalId == signalId then Some(journal[0])
    else Find(journal[1..], signalId)
  }

  predicate AnyOpen(journal: seq<Trade>) {
    exists i :: 0 <= i < |journal| && journal[i].status == Open
  }

  predicate HasId(journal: seq<Trade>, id: string) {
    exists i :: 0 <= i < |journal| && journal[i].id == id
  }

  function CountDay(journal: seq<Trade>, day: int): nat {
    if journal == [] then 0
    else CountDay(journal[..|journal| - 1], day) + if IstDay(journal[|journal| - 1].entryTime) == day then 1 else 0
  }

  /** The checks `submit` makes before it looks at the journal. */
  function Refusal(s: Settings, a: Submission): Option<string> {
    if !s.enabled then Some("AI_TRADING_NOT_ENABLED")
    else if !s.paper then Some("EXECUTION_MODE_NOT_READY")
    else if a.quantity <= 0 || a.quantity > s.maxQuantity then Some("QUANTITY_EXCEEDS_OPERATOR_LIMIT")
    else if !("INST-NIFTY-" <= a.instrument) then Some("ONLY_NIFTY_OPTION_CONTRACTS_ALLOWED")
    else None
  }

  /** The checks of a new entry, in order. */
  function NewEntry(s: Settings, journal: seq<Trade>, a: Submission): Result<Trade, string> {
    if AnyOpen(journal) then Err("ANOTHER_AI_TRADE_IS_OPEN")
    else if s.maxDailyEntries > 0 && CountDay(journal, IstDay(a.checkTime)) >= s.maxDailyEntries
    then Err("AI_DAILY_ENTRY_LIMIT_REACHED")
    else
      var quote := CheckQuote(a.leg, a.instrument, a.quoteTime);
      if quote.Err? then Err(quote.error)
      else if quote.value.lotSize <= 0 || a.quantity % quote.value.lotSize != 0 then Err("INVALID_LOT_QUANTITY")
      else if Share(quote.value.ask, a.quantity as real) > s.maxNotional then Err("AI_NOTIONAL_LIMIT_EXCEEDED")
      else if HasId(journal, a.id) then Err("AI_TRADE_ALREADY_SUBMITTED")
      else Ok(Entered(a.id, a.signalId, a.instrument, a.quantity, quote.value, a.insertTime, s.policy))
  }

  /** What the caller of `submit` gets. */
  function Submitted(s: Settings, journal: seq<Trade>, a: Submission): Result<Trade, string> {
    if Refusal(s, a).Some? then Err(Refusal(s, a).value)
    else
      var existing := Find(journal, a.signalId);
      if existing == None then NewEntry(s, journal, a)
      else if existing.value.instrument != a.instrument || existing.value.quantity != a.quantity then Err("SIGNAL_ID_CONFLICT")
      else Ok(existing.value)
  }

  function AfterSubmit(s: Settings, journal: seq<Trade>, a: Submission): seq<Trade> {
    if Refusal(s, a) == None && Find(journal, a.signalId) == None && NewEntry(s, journal, a).Ok?
    then journal + [NewEntry(s, journal, a).value]
    else journal
  }

  function AfterPoll(journal: seq<Trade>, looks: string -> Look): (polled: seq<Trade>)
    ensures |polled| == |journal|
    ensures forall i :: 0 <= i < |journal| ==> polled[i] == Polled(journal[i], looks(journal[i].id))
  {
    seq(|journal|, i requires 0 <= i < |journal| => Polled(journal[i], looks(journal[i].id)))
  }

  class AITradeService {
    const settings: Settings
    var journal: seq<Trade>

    constructor (settings: Settings)
      ensures this.settings == settings && journal == []
    {
      this.settings := settings;
      journal := [];
    }

    method Submit(a: Submission) returns (result: Result<Trade, string>)
      modifies this
      ensures journal == AfterSubmit(settings, old(journal), a)
      ensures result == Submitted(settings, old(journal), a)
    {
      if !settings.enabled {
        return Err("AI_TRADING_NOT_ENABLED");
      }
      if !settings.paper {
        return Err("EXECUTION_MODE_NOT_READY");
      }
      if a.quantity <= 0 || a.quantity > settings.maxQuantity {
        return Err("QUANTITY_EXCEEDS_OPERATOR_LIMIT");
      }
      if !("INST-NIFTY-" <= a.instrument) {
        return Err("ONLY_NIFTY_OPTION_CONTRACTS_ALLOWED");
      }
      var existing := Find(journal, a.signalId);
      if existing.Some? {
        if existing.value.instrument != a.instrument || existing.value.quantity != a.quantity {
          return Err("SIGNAL_ID_CONFLICT");
        }
        return Ok(existing.value);
      }
      if AnyOpen(journal) {
        return Err("ANOTHER_AI_TRADE_IS_OPEN");
      }
      if settings.maxDailyEntries > 0 {
        var today := CountDay(journal, IstDay(a.checkTime));
        if today >= settings.maxDailyEntries {
          return Err("AI_DAILY_ENTRY_LIMIT_REACHED");
        }
      }
      var quote := CheckQuote(a.leg, a.instrument, a.quoteTime);
      if quote.Err? {
        return Err(quote.error);
      }
      if quote.value.lotSize <= 0 || a.quantity % quote.value.lotSize != 0 {
        return Err("INVALID_LOT_QUANTITY");
      }
      if Share(quote.value.ask, a.quantity as real) > settings.maxNotional {
        return Err("AI_NOTIONAL_LIMIT_EXCEEDED");
      }
      if HasId(journal, a.id) {
        return Err("AI_TRADE_ALREADY_SUBMITTED");
      }
      var trade := Entered(a.id, a.signalId, a.instrument, a.quantity, quote.value, a.insertTime, settings.policy);
      journal := journal + [trade];
      return Ok(trade);
    }

    method PollOnce(looks: string -> Look)
      modifies this
      ensures journal == AfterPoll(old(journal), looks)
    {
      var rows := journal;
      for i := 0 to |rows|
        invariant |journal| == |rows|
        invariant forall k :: 0 <= k < |rows| ==> journal[k] == if k < i then Polled(rows[k], looks(rows[k].id)) else rows[k]
      {
        if rows[i].status != Open {
          continue;
        }
        var look := looks(rows[i].id);
        match look
        case Unquoted(code, now) =>
          journal := journal[i := rows[i].(dataStatus := code, lastChecked := Some(now))];
        case Quoted(bid, now) =>
          journal := journal[i := Transition(rows[i], bid, now)];
      }
    }
  }

  // ---- whole runs ----

  datatype Op = Submit(a: Submission) | Poll(looks: string -> Look, now: int)

  /** The clock after an operation; operations take their readings in order. */
  function Clock(op: Op): int {
    match op
    case Submit(a) => a.insertTime
    case Poll(_, now) => now
  }

  ghost predicate InOrder(clock: int, op: Op) {
    match op
    case Submit(a) => clock <= a.checkTime <= a.quoteTime <= a.insertTime
    case Poll(_, now) => clock <= now
  }

  function Apply(s: Settings, journal: seq<Trade>, op: Op): seq<Trade> {
    match op
    case Submit(a) => AfterSubmit(s, journal, a)
    case Poll(looks, _) => AfterPoll(journal, looks)
  }

  function Journal(s: Settings, ops: seq<Op>): seq<Trade> {
    if ops == [] then [] else Apply(s, Journal(s, ops[..|ops| - 1]), ops[|ops| - 1])
  }

  function ClockAfter(start: int, ops: seq<Op>): int {
    if ops == [] then start else Clock(ops[|ops| - 1])
  }

  ghost predicate Ordered(start: int, ops: seq<Op>) {
    ops == [] || (Ordered(start, ops[..|ops| - 1]) && InOrder(ClockAfter(start, ops[..|ops| - 1]), ops[|ops| - 1]))
  }

  /** The row's stop, target, trailing stop and profit are those of its entry, its peak and the settings' policy. */
  ghost predicate RowInv(s: Settings, t: Trade) {
    t.policy == s.policy && Shaped(t) && Priced(t)
  }

  ghost predicate JournalInv(s: Settings, journal: seq<Trade>, clock: int) {
    && (forall i, j :: 0 <= i < j < |journal| ==> journal[i].id != journal[j].id && journal[i].signalId != journal[j].signalId)
    && (forall i, j :: 0 <= i < j < |journal| ==> journal[i].status != Open || journal[j].status != Open)
    && (forall i :: 0 <= i < |journal| ==> journal[i].entryTime <= clock && RowInv(s, journal[i]))
    && (s.maxDailyEntries > 0 ==> forall day :: CountDay(journal, day) <= s.maxDailyEntries)
  }

  lemma {:induction false} FindFinds(journal: seq<Trade>, signalId: string)
    ensures Find(journal, signalId) == None ==> forall i :: 0 <= i < |journal| ==> journal[i].signalId != signalId
    ensures Find(journal, signalId).Some? ==> exists i :: 0 <= i < |journal| && journal[i] == Find(journal, signalId).value
                                                       && journal[i].signalId == signalId
  {
    if journal != [] && journal[0].signalId != signalId {
      FindFinds(journal[1..], signalId);
      if Find(journal[1..], signalId).Some? {
        var i :| 0 <= i < |journal[1..]| && journal[1..][i] == Find(journal[1..], signalId).value && journal[1..][i].signalId == signalId;
        assert journal[i + 1] == journal[1..][i];
      }
    }
  }

  lemma {:induction false} NoEntriesAhead(journal: seq<Trade>, clock: int, day: int)
    requires forall i :: 0 <= i < |journal| ==> journal[i].entryTime <= clock
    requires day > IstDay(clock)
    ensures CountDay(journal, day) == 0
  {
    if journal != [] {
      NoEntriesAhead(journal[..|journal| - 1], clock, day);
    }
  }

  lemma CountAppend(journal: seq<Trade>, t: Trade, day: int)
    ensures CountDay(journal + [t], day) == CountDay(journal, day) + if IstDay(t.entryTime) == day then 1 else 0
  {
    assert (journal + [t])[..|journal|] == journal;
  }

  /** Even if midnight falls between the count and the insert, no IST day exceeds the cap. */
  lemma CapSurvivesMidnight(s: Settings, journal: seq<Trade>, clock: int, a: Submission, t: Trade, day: int)
    requires JournalInv(s, journal, clock) && InOrder(clock, Submit(a)) && NewEntry(s, journal, a) == Ok(t)
    requires s.maxDailyEntries > 0
    ensures CountDay(journal + [t], day) <= s.maxDailyEntries
  {
    CountAppend(journal, t, day);
    if day == IstDay(a.insertTime) && day > IstDay(a.checkTime) {
      NoEntriesAhead(journal, clock, day);
    }
  }

  lemma QuoteIsTwoSided(leg: Option<Leg>, instrument: string, now: int)
    requires CheckQuote(leg, instrument, now).Ok?
    ensures var q := CheckQuote(leg, instrument, now).value; 0.0 < q.bid <= q.ask
  {
  }

  lemma SubmitKeepsInv(s: Settings, journal: seq<Trade>, clock: int, a: Submission)
    requires ProperPolicy(s.policy) && JournalInv(s, journal, clock) && InOrder(clock, Submit(a))
    ensures JournalInv(s, AfterSubmit(s, journal, a), a.insertTime)
  {
    FindFinds(journal, a.signalId);
    if Refusal(s, a) == None && Find(journal, a.signalId) == None && NewEntry(s, journal, a).Ok? {
      var t := NewEntry(s, journal, a).value;
      QuoteIsTwoSided(a.leg, a.instrument, a.quoteTime);
      var quote := CheckQuote(a.leg, a.instrument, a.quoteTime).value;
      EnteredIsShaped(a.id, a.signalId, a.instrument, a.quantity, quote, a.insertTime, s.policy);
      EnteredIsPriced(a.id, a.signalId, a.instrument, a.quantity, quote, a.insertTime, s.policy);
      forall day | s.maxDailyEntries > 0 ensures CountDay(journal + [t], day) <= s.maxDailyEntries {
        CapSurvivesMidnight(s, journal, clock, a, t, day);
      }
    }
  }

  lemma PolledKeeps(s: Settings, t: Trade, look: Look)
    requires RowInv(s, t)
    ensures var u := Polled(t, look); RowInv(s, u) && SameEntry(t, u) && (t.status != Open ==> u == t)
  {
    PolledStaysPriced(t, look);
    if t.status == Open && look.Quoted? {
      TransitionKeepsShape(t, look.bid, look.now);
    }
  }

  lemma {:induction false} PollKeepsCounts(journal: seq<Trade>, polled: seq<Trade>, day: int)
    requires |journal| == |polled| && forall i :: 0 <= i < |journal| ==> polled[i].entryTime == journal[i].entryTime
    ensures CountDay(polled, day) == CountDay(journal, day)
  {
    if journal != [] {
      PollKeepsCounts(journal[..|journal| - 1], polled[..|polled| - 1], day);
    }
  }

  lemma PollKeepsInv(s: Settings, journal: seq<Trade>, clock: int, looks: string -> Look, now: int)
    requires JournalInv(s, journal, clock) && clock <= now
    ensures JournalInv(s, AfterPoll(journal, looks), now)
  {
    var polled := AfterPoll(journal, looks);
    forall i | 0 <= i < |journal|
      ensures RowInv(s, polled[i]) && SameEntry(journal[i], polled[i]) && (journal[i].status != Open ==> polled[i] == journal[i])
    {
      PolledKeeps(s, journal[i], looks(journal[i].id));
    }
    forall day ensures CountDay(polled, day) == CountDay(journal, day) {
      PollKeepsCounts(journal, polled, day);
    }
  }

  /** In every run of submits and polls with a clock that never goes back: at most one trade is open, ids and
      signal ids are unique, no IST day exceeds a positive cap, every row's stop, target, trailing flag and
      trail are those of its entry, its peak and the policy, and every closed row has the reason that
      applied first and the profit of its price. */
  lemma {:induction false} JournalInvHolds(s: Settings, start: int, ops: seq<Op>)
    requires ProperPolicy(s.policy) && Ordered(start, ops)
    ensures JournalInv(s, Journal(s, ops), ClockAfter(start, ops))
  {
    if ops != [] {
      var n := |ops| - 1;
      JournalInvHolds(s, start, ops[..n]);
      var clock := ClockAfter(start, ops[..n]);
      match ops[n]
      case Submit(a) => SubmitKeepsInv(s, Journal(s, ops[..n]), clock, a);
      case Poll(looks, now) => PollKeepsInv(s, Journal(s, ops[..n]), clock, looks, now);
    }
  }

  /** Resubmitting a stored signal with the same instrument and quantity returns the stored trade;
      a different use of its id is refused; neither changes the journal. */
  lemma ResubmissionIsIdempotent(s: Settings, journal: seq<Trade>, clock: int, a: Submission, k: nat)
    requires JournalInv(s, journal, clock) && k < |journal| && journal[k].signalId == a.signalId && Refusal(s, a) == None
    ensures AfterSubmit(s, journal, a) == journal
    ensures Submitted(s, journal, a)
         == if journal[k].instrument == a.instrument && journal[k].quantity == a.quantity then Ok(journal[k]) else Err("SIGNAL_ID_CONFLICT")
  {
    FindFinds(journal, a.signalId);
  }

  ghost predicate Recorded(journal: seq<Trade>, signalId: string) {
    exists k :: 0 <= k < |journal| && journal[k].signalId == signalId
  }

  lemma SubmissionIsRecorded(s: Settings, journal: seq<Trade>, a: Submission)
    requires Submitted(s, journal, a).Ok?
    ensures Recorded(AfterSubmit(s, journal, a), a.signalId)
  {
    var after := AfterSubmit(s, journal, a);
    FindFinds(journal, a.signalId);
    if Find(journal, a.signalId) == None {
      assert after[|after| - 1].signalId == a.signalId;
    }
  }

  lemma AcceptedIsStored(s: Settings, ops: seq<Op>, a: Submission)
    requires Submitted(s, Journal(s, ops), a).Ok?
    ensures Recorded(Journal(s, ops + [Submit(a)]), a.signalId)
  {
    assert (ops + [Submit(a)])[..|ops|] == ops;
    SubmissionIsRecorded(s, Journal(s, ops), a);
  }

  lemma StepPersists(s: Settings, journal: seq<Trade>, op: Op, signalId: string)
    requires Recorded(journal, signalId)
    ensures Recorded(Apply(s, journal, op), signalId)
  {
    var k :| 0 <= k < |journal| && journal[k].signalId == signalId;
    assert Apply(s, journal, op)[k].signalId == signalId;
  }

  lemma {:induction false} RowsPersist(s: Settings, ops: seq<Op>, more: seq<Op>, signalId: string)
    requires Recorded(Journal(s, ops), signalId)
    ensures Recorded(Journal(s, ops + more), signalId)
  {
    if more == [] {
      assert ops + more == ops;
    } else {
      var n := |more| - 1;
      RowsPersist(s, ops, more[..n], signalId);
      assert (ops + more)[..|ops| + n] == ops + more[..n];
      StepPersists(s, Journal(s, ops + more[..n]), more[n], signalId);
    }
  }

  /** Once a submission was accepted, repeating it at any later point of the run finds its trade,
      whatever happened in between, and never inserts again. */
  lemma {:induction false} SignalIsRemembered(s: Settings, start: int, ops: seq<Op>, more: seq<Op>, a: Submission, again: Submission)
    requires ProperPolicy(s.policy) && Ordered(start, ops + [Submit(a)] + more)
    requires Submitted(s, Journal(s, ops), a).Ok? && again.signalId == a.signalId && Refusal(s, again) == None
    ensures var journal := Journal(s, ops + [Submit(a)] + more);
            && AfterSubmit(s, journal, again) == journal
            && (exists k :: 0 <= k < |journal| && journal[k].signalId == a.signalId)
  {
    var run := ops + [Submit(a)] + more;
    JournalInvHolds(s, start, run);
    RowsPersist(s, ops + [Submit(a)], more, a.signalId) by { AcceptedIsStored(s, ops, a); }
    FindFinds(Journal(s, run), a.signalId);
  }

  // ---- when a submission is accepted, and what it inserts ----

  /** The day's count is the number of rows entered on that IST day. */
  lemma {:induction false} CountDayIs(journal: seq<Trade>, day: int)
    ensures CountDay(journal, day) == |set i | 0 <= i < |journal| && journal[i].entryTime / 86400 == day|
  {
    var rows := set i | 0 <= i < |journal| && journal[i].entryTime / 86400 == day;
    if journal != [] {
      var n := |journal| - 1;
      var before := set i | 0 <= i < n && journal[..n][i].entryTime / 86400 == day;
      CountDayIs(journal[..n], day);
      assert rows == before + if journal[n].entryTime / 86400 == day then {n} else {};
    }
  }

  /** What must hold of the settings and the request. */
  ghost predicate Permitted(s: Settings, a: Submission) {
    s.enabled && s.paper && 0 < a.quantity <= s.maxQuantity && |a.instrument| >= 11 && a.instrument[..11] == "INST-NIFTY-"
  }

  /** What must hold of the journal. */
  ghost predicate HasRoom(s: Settings, journal: seq<Trade>, a: Submission) {
    && (forall i :: 0 <= i < |journal| ==> journal[i].signalId != a.signalId && journal[i].id != a.id && journal[i].status != Open)
    && (s.maxDailyEntries > 0 ==>
          |set i | 0 <= i < |journal| && journal[i].entryTime / 86400 == a.checkTime / 86400| < s.maxDailyEntries)
  }

  /** What must hold of the contract's quote. */
  ghost predicate Tradable(s: Settings, a: Submission) {
    && a.leg.Some? && a.leg.value.source == "KITE" && a.leg.value.instrument == a.instrument
    && a.leg.value.observed.Some? && -1 <= a.quoteTime - a.leg.value.observed.value <= 15
    && 0.0 < a.leg.value.bid <= a.leg.value.ask
    && (a.leg.value.ask - a.leg.value.bid) * 200.0 <= 3.0 * (a.leg.value.ask + a.leg.value.bid)
    && a.leg.value.lotSize > 0 && a.quantity % a.leg.value.lotSize == 0
    && a.leg.value.ask * a.quantity as real <= s.maxNotional
  }

  lemma RefusedExactly(s: Settings, a: Submission)
    ensures Refusal(s, a) == None <==> Permitted(s, a)
  {
    assert "INST-NIFTY-" <= a.instrument <==> |a.instrument| >= 11 && a.instrument[..11] == "INST-NIFTY-";
  }

  lemma NewEntryExactly(s: Settings, journal: seq<Trade>, a: Submission)
    requires forall i :: 0 <= i < |journal| ==> journal[i].signalId != a.signalId
    ensures NewEntry(s, journal, a).Ok? <==> HasRoom(s, journal, a) && Tradable(s, a)
  {
    UsableExactly(a.leg, a.instrument, a.quoteTime);
    CountDayIs(journal, a.checkTime / 86400);
  }

  /** A submission inserts a trade exactly when the settings permit it, its signal and id are new, no trade is open,
      the day's cap is not reached and the quote is usable, in whole lots and within the notional limit; it then
      appends one OPEN row, entered at the ask and looked at from the bid, and otherwise changes nothing. */
  lemma AcceptedExactly(s: Settings, journal: seq<Trade>, a: Submission)
    requires ProperPolicy(s.policy)
    ensures if Permitted(s, a) && HasRoom(s, journal, a) && Tradable(s, a) then
              exists t :: AfterSubmit(s, journal, a) == journal + [t]
                && t.id == a.id && t.signalId == a.signalId && t.instrument == a.instrument && t.quantity == a.quantity
                && t.entry == a.leg.value.ask && t.entryBid == t.peak == t.lastBid == a.leg.value.bid
                && t.entryTime == a.insertTime && t.status == Open && !t.trailing && t.currentStop == t.initialStop
                && t.policy == s.policy && Priced(t)
            else AfterSubmit(s, journal, a) == journal
  {
    FindFinds(journal, a.signalId);
    RefusedExactly(s, a);
    if Find(journal, a.signalId) == None {
      NewEntryExactly(s, journal, a);
      if Permitted(s, a) && NewEntry(s, journal, a).Ok? {
        var t := NewEntry(s, journal, a).value;
        UsableExactly(a.leg, a.instrument, a.quoteTime);
        EnteredIsPriced(a.id, a.signalId, a.instrument, a.quantity, CheckQuote(a.leg, a.instrument, a.quoteTime).value,
                        a.insertTime, s.policy);
        assert AfterSubmit(s, journal, a) == journal + [t];
      }
    }
  }
}
