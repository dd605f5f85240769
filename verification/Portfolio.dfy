/** The portfolio's execution table: deterministic execution ids and at-most-once application. */
module Portfolio {
  import opened Common

  /** One published or stored fill. `cumulative` is the order's filled quantity after it. */
  datatype Fill = Fill(orderId: string, cumulative: nat, quantity: int)

  // ---- execution ids ----

  function Digit(d: nat): char
    requires d < 10
  {
    "0123456789"[d]
  }

  function Decimal(n: nat): string {
    if n < 10 then [Digit(n)] else Decimal(n / 10) + [Digit(n % 10)]
  }

  function ExecutionId(f: Fill): string {
    "FILL-" + f.orderId + "-" + Decimal(f.cumulative)
  }

  lemma {:induction false} DecimalIsDigits(n: nat, i: nat)
    requires i < |Decimal(n)|
    ensures Decimal(n)[i] != '-'
  {
    if n >= 10 && i < |Decimal(n / 10)| {
      DecimalIsDigits(n / 10, i);
    }
  }

  lemma DecimalNonEmpty(n: nat)
    ensures |Decimal(n)| > 0
  {
  }

  lemma {:induction false} DecimalInjective(m: nat, n: nat)
    requires Decimal(m) == Decimal(n)
    ensures m == n
  {
    var s, t := Decimal(m), Decimal(n);
    assert s[|s| - 1] == t[|t| - 1];
    if m >= 10 && n >= 10 {
      assert s[..|s| - 1] == Decimal(m / 10) && t[..|t| - 1] == Decimal(n / 10);
      DecimalInjective(m / 10, n / 10);
    } else {
      DecimalNonEmpty(m / 10);
      DecimalNonEmpty(n / 10);
    }
  }

  lemma LongerSuffixDiffers(f: Fill, g: Fill)
    requires |Decimal(f.cumulative)| < |Decimal(g.cumulative)|
    ensures ExecutionId(f) != ExecutionId(g)
  {
    var s, t := ExecutionId(f), ExecutionId(g);
    var a, b := Decimal(f.cumulative), Decimal(g.cumulative);
    if |s| == |t| {
      var k := |s| - |a| - 1;
      var j := k - (|t| - |b|);
      assert s[k] == '-';
      assert t[k] == b[j];
      DecimalIsDigits(g.cumulative, j);
    }
  }

  /** Two fills share an execution id exactly when they share order and cumulative quantity,
      whatever characters the order ids contain. */
  lemma ExecutionIdIdentifies(f: Fill, g: Fill)
    ensures ExecutionId(f) == ExecutionId(g) <==> f.orderId == g.orderId && f.cumulative == g.cumulative
  {
    if ExecutionId(f) == ExecutionId(g) {
      var a, b := Decimal(f.cumulative), Decimal(g.cumulative);
      assert |a| == |b| by {
        if |a| < |b| { LongerSuffixDiffers(f, g); }
        if |b| < |a| { LongerSuffixDiffers(g, f); }
      }
      var s, t := ExecutionId(f), ExecutionId(g);
      assert a == s[|s| - |a|..] && b == t[|t| - |b|..];
      DecimalInjective(f.cumulative, g.cumulative);
      assert f.orderId == s[5..|s| - |a| - 1] && g.orderId == t[5..|t| - |b| - 1];
    }
  }

  // ---- the table ----

  ghost predicate Stored(rows: seq<Fill>, orderId: string, cumulative: nat) {
    exists i :: 0 <= i < |rows| && rows[i].orderId == orderId && rows[i].cumulative == cumulative
  }

  /** The lookup the handler performs: by execution id. */
  function HasExecution(rows: seq<Fill>, id: string): (found: bool)
    ensures found <==> exists i :: 0 <= i < |rows| && ExecutionId(rows[i]) == id
  {
    rows != [] && (ExecutionId(rows[|rows| - 1]) == id || HasExecution(rows[..|rows| - 1], id))
  }

  function ApplyFill(rows: seq<Fill>, f: Fill): seq<Fill> {
    if HasExecution(rows, ExecutionId(f)) then rows else rows + [f]
  }

  /** `SELECT COALESCE(SUM(quantity), 0) ... WHERE order_id = ?` */
  function Executed(rows: seq<Fill>, orderId: string): int {
    if rows == [] then 0
    else Executed(rows[..|rows| - 1], orderId) + (if rows[|rows| - 1].orderId == orderId then rows[|rows| - 1].quantity else 0)
  }

  lemma HasExecutionMeansStored(rows: seq<Fill>, f: Fill)
    ensures HasExecution(rows, ExecutionId(f)) <==> Stored(rows, f.orderId, f.cumulative)
  {
    forall i | 0 <= i < |rows|
      ensures ExecutionId(rows[i]) == ExecutionId(f) <==> rows[i].orderId == f.orderId && rows[i].cumulative == f.cumulative
    {
      ExecutionIdIdentifies(rows[i], f);
    }
  }

  /** Applying a fill adds its quantity to its own order only, and only the first time. */
  lemma ApplyFillEffect(rows: seq<Fill>, f: Fill, orderId: string)
    ensures Executed(ApplyFill(rows, f), orderId)
         == Executed(rows, orderId) + (if f.orderId == orderId && !Stored(rows, f.orderId, f.cumulative) then f.quantity else 0)
    ensures Stored(ApplyFill(rows, f), f.orderId, f.cumulative)
    ensures ApplyFill(ApplyFill(rows, f), f) == ApplyFill(rows, f)
  {
    HasExecutionMeansStored(rows, f);
    var rows' := ApplyFill(rows, f);
    if rows' != rows {
      assert rows'[..|rows'| - 1] == rows;
      assert rows'[|rows|] == f;
    }
    HasExecutionMeansStored(rows', f);
  }
}
