/** How the broker's status words are read, and what an answer makes of an order's row. */
module BrokerWords {
  import opened Common
  import opened Oms
  import opened Protocol

  // ---- the broker's words ----

  /** The character reads as this upper-case letter, or as this underscore. */
  ghost predicate Reads(c: char, d: char) {
    c == d || ('A' <= d <= 'Z' && c as int == d as int + 32) || (d == '_' && c == '-')
  }

  /** The status is this word, in either case and with dashes for underscores. */
  ghost predicate Says(status: string, word: string) {
    |status| == |word| && forall i :: 0 <= i < |word| ==> Reads(status[i], word[i])
  }

  ghost predicate SaysFilled(status: string) {
    Says(status, "FILLED") || Says(status, "COMPLETE") || Says(status, "COMPLETED")
  }

  ghost predicate SaysPartial(status: string) {
    Says(status, "PARTIALLY_FILLED") || Says(status, "PARTIALLY FILLED") || Says(status, "PARTIAL")
  }

  ghost predicate SaysOpen(status: string) {
    Says(status, "OPEN") || Says(status, "PLACED")
  }

  ghost predicate SaysUnknown(status: string) {
    status == "" || Says(status, "UNKNOWN")
  }

  ghost predicate Plain(word: string) {
    forall i :: 0 <= i < |word| ==> !('a' <= word[i] <= 'z') && word[i] != '-'
  }

  function Folded(status: string): string {
    DashesToUnderscores(UpperCase(status))
  }

  lemma {:induction false} FoldedIs(status: string, word: string)
    requires Plain(word)
    ensures Folded(status) == word <==> Says(status, word)
  {
    if status != "" && word != "" {
      FoldedIs(status[1..], word[1..]);
      assert Folded(status)[1..] == Folded(status[1..]);
      assert Folded(status) == word <==> Folded(status)[0] == word[0] && Folded(status[1..]) == word[1..] by {
        assert word == [word[0]] + word[1..];
        assert Folded(status) == [Folded(status)[0]] + Folded(status)[1..];
      }
      assert Says(status, word) <==> Reads(status[0], word[0]) && Says(status[1..], word[1..]) by {
        forall i | 0 < i < |word| && |status| == |word|
          ensures status[i] == status[1..][i - 1] && word[i] == word[1..][i - 1]
        {
        }
      }
    } else {
      assert Folded("") == "";
    }
  }

  lemma FilledWords(status: string)
    requires status != ""
    ensures NormalizeStatus(status) == "FILLED" <==> SaysFilled(status)
  {
    FoldedIs(status, "FILLED");
    FoldedIs(status, "COMPLETE");
    FoldedIs(status, "COMPLETED");
  }

  lemma PlainWords()
    ensures Plain("PARTIAL") && Plain("PARTIALLY FILLED") && Plain("PARTIALLY_FILLED")
  {
  }

  lemma PartialWords(status: string)
    requires status != ""
    ensures NormalizeStatus(status) == "PARTIALLY_FILLED" <==> SaysPartial(status)
  {
    PlainWords();
    FoldedIs(status, "PARTIAL");
    FoldedIs(status, "PARTIALLY FILLED");
    FoldedIs(status, "PARTIALLY_FILLED");
  }

  lemma OtherWord(status: string, word: string)
    requires status != "" && Plain(word)
    requires word !in {"FILLED", "COMPLETE", "COMPLETED", "PARTIAL", "PARTIALLY FILLED", "PARTIALLY_FILLED"}
    ensures NormalizeStatus(status) == word <==> Says(status, word)
  {
    FoldedIs(status, word);
  }

  /** A broker that gives no status is read as saying UNKNOWN. */
  lemma NoStatus()
    ensures NormalizeStatus("") == "UNKNOWN"
  {
    assert Says("UNKNOWN", "UNKNOWN");
    OtherWord("UNKNOWN", "UNKNOWN");
    assert NormalizeStatus("") == NormalizeStatus("UNKNOWN");
  }

  // ---- what a broker's answer makes of a row ----

  /** The row is in state `to` with what the answer reports. */
  ghost predicate Took(o: Order, o': Order, a: Response, to: OrderState) {
    && o'.status == to && o'.filled == a.filled
    && o'.averagePrice == (if a.averagePrice == 0.0 then o.averagePrice else a.averagePrice)
    && o'.brokerId == (if a.brokerId.Some? then a.brokerId else o.brokerId)
    && (o' == o || o'.remaining == Max(0, o.quantity - a.filled))
  }

  ghost predicate SubmittedRow(o: Order) {
    o.status in {Submitting, SubmissionUnknown, Acknowledged, Open, PartiallyFilled}
  }

  /** The row follows the broker's answer, word by word. */
  ghost predicate Follows(o: Order, o': Order, a: Response) {
    && (SaysFilled(a.status) ==> Took(o, o', a, Filled))
    && (SaysPartial(a.status) ==> Took(o, o', a, PartiallyFilled))
    && (SaysOpen(a.status) && a.filled > 0 ==> Took(o, o', a, PartiallyFilled))
    && (SaysOpen(a.status) && a.filled == 0 ==> if o.status == PartiallyFilled then o' == o else Took(o, o', a, Open))
    && (SaysUnknown(a.status) ==>
          if o.status in {Submitting, SubmissionUnknown} then Took(o, o', a, SubmissionUnknown) else o' == o)
    && (Says(a.status, "CANCELLED") ==> if o.status == Submitting then o' == o else Took(o, o', a, Cancelled))
    && (Says(a.status, "REJECTED") ==> if o.status in {Open, PartiallyFilled} then o' == o else Took(o, o', a, Rejected))
    && (Says(a.status, "EXPIRED") ==>
          if o.status in {Submitting, SubmissionUnknown} then o' == o else Took(o, o', a, Expired))
  }

  /** The update that carries an answer about this order. */
  ghost predicate Carries(u: BrokerEvent, o: Order, a: Response) {
    && u.status == NormalizeStatus(a.status) && u.filled == a.filled && u.averagePrice == a.averagePrice
    && (u.brokerId == a.brokerId || (a.brokerId == None && u.brokerId == o.brokerId))
  }

  lemma FilledRow(o: Order, u: BrokerEvent, a: Response)
    requires SubmittedRow(o) && Carries(u, o, a) && SaysFilled(a.status)
    ensures Took(o, ApplyBrokerEvent(o, u), a, Filled)
  {
    FilledWords(a.status);
    WordMovesOrder(o, u);
  }

  lemma PartialRow(o: Order, u: BrokerEvent, a: Response)
    requires SubmittedRow(o) && Carries(u, o, a) && SaysPartial(a.status)
    ensures Took(o, ApplyBrokerEvent(o, u), a, PartiallyFilled)
  {
    PartialWords(a.status);
    WordMovesOrder(o, u);
  }

  lemma OpenRow(o: Order, u: BrokerEvent, a: Response)
    requires SubmittedRow(o) && Carries(u, o, a) && SaysOpen(a.status)
    ensures var o' := ApplyBrokerEvent(o, u);
            if a.filled > 0 then Took(o, o', a, PartiallyFilled)
            else if o.status == PartiallyFilled then o' == o
            else Took(o, o', a, Open)
  {
    OtherWord(a.status, "OPEN");
    OtherWord(a.status, "PLACED");
    WordMovesOrder(o, u);
  }

  lemma UnknownRow(o: Order, u: BrokerEvent, a: Response)
    requires SubmittedRow(o) && Carries(u, o, a) && SaysUnknown(a.status)
    ensures var o' := ApplyBrokerEvent(o, u);
            if o.status in {Submitting, SubmissionUnknown} then Took(o, o', a, SubmissionUnknown) else o' == o
  {
    if a.status == "" {
      NoStatus();
    } else {
      OtherWord(a.status, "UNKNOWN");
    }
    WordMovesOrder(o, u);
  }

  lemma CancelledRow(o: Order, u: BrokerEvent, a: Response)
    requires SubmittedRow(o) && Carries(u, o, a) && Says(a.status, "CANCELLED")
    ensures var o' := ApplyBrokerEvent(o, u); if o.status == Submitting then o' == o else Took(o, o', a, Cancelled)
  {
    OtherWord(a.status, "CANCELLED");
    WordMovesOrder(o, u);
  }

  lemma RejectedRow(o: Order, u: BrokerEvent, a: Response)
    requires SubmittedRow(o) && Carries(u, o, a) && Says(a.status, "REJECTED")
    ensures var o' := ApplyBrokerEvent(o, u); if o.status in {Open, PartiallyFilled} then o' == o else Took(o, o', a, Rejected)
  {
    OtherWord(a.status, "REJECTED");
    WordMovesOrder(o, u);
  }

  lemma ExpiredRow(o: Order, u: BrokerEvent, a: Response)
    requires SubmittedRow(o) && Carries(u, o, a) && Says(a.status, "EXPIRED")
    ensures var o' := ApplyBrokerEvent(o, u);
            if o.status in {Submitting, SubmissionUnknown} then o' == o else Took(o, o', a, Expired)
  {
    OtherWord(a.status, "EXPIRED");
    WordMovesOrder(o, u);
  }

  lemma RowFollows(o: Order, u: BrokerEvent, a: Response)
    requires SubmittedRow(o) && Carries(u, o, a)
    ensures Follows(o, ApplyBrokerEvent(o, u), a)
  {
    if SaysFilled(a.status) { FilledRow(o, u, a); }
    if SaysPartial(a.status) { PartialRow(o, u, a); }
    if SaysOpen(a.status) { OpenRow(o, u, a); }
    if SaysUnknown(a.status) { UnknownRow(o, u, a); }
    if Says(a.status, "CANCELLED") { CancelledRow(o, u, a); }
    if Says(a.status, "REJECTED") { RejectedRow(o, u, a); }
    if Says(a.status, "EXPIRED") { ExpiredRow(o, u, a); }
  }

  /** Words that end an order end the row exactly where the state table has the edge, and else leave it as it is. */
  ghost predicate EndsWhereAllowed(o: Order, o': Order, a: Response) {
    && (Says(a.status, "CANCELLED") ==> (Terminal(o'.status) <==> o.status != Submitting))
    && (Says(a.status, "EXPIRED") ==> (Terminal(o'.status) <==> o.status !in {Submitting, SubmissionUnknown}))
    && (Says(a.status, "REJECTED") ==> (Terminal(o'.status) <==> o.status !in {Open, PartiallyFilled}))
    && (Says(a.status, "CANCELLED") || Says(a.status, "EXPIRED") || Says(a.status, "REJECTED") ==>
          Terminal(o'.status) || o' == o)
  }

  lemma EndsPerTable(o: Order, o': Order, a: Response)
    requires SubmittedRow(o) && Follows(o, o', a)
    ensures EndsWhereAllowed(o, o', a)
  {
    assert !Terminal(o.status);
  }
}
