/** The goodness-of-fit part of the core: the chi-squared statistic, the
    critical-value lookup in a table of quantiles, and the decision whether
    to reject Hardy-Weinberg equilibrium. */
module ChiSquared {
  import opened Wrappers
  import opened Errors

  // ---------------------------------------------------------------------
  // The statistic

  predicate NonZero(s: seq<real>)
  {
    forall i :: 0 <= i < |s| ==> s[i] != 0.0
  }

  predicate Positive(s: seq<real>)
  {
    forall i :: 0 <= i < |s| ==> s[i] > 0.0
  }

  /** x ** 2 */
  function Square(x: real): real
  {
    x * x
  }

  /** One term (1/e) (e - o)^2 of the statistic. */
  function Term(e: real, o: real): real
    requires e != 0.0
  {
    (1.0 / e) * Square(e - o)
  }

  /** The statistic over paired elements, accumulated from the left. */
  function ChiSum(expected: seq<real>, observed: seq<real>): real
    requires |expected| == |observed| && NonZero(expected)
  {
    if expected == [] then 0.0
    else
      var n := |expected| - 1;
      ChiSum(expected[..n], observed[..n]) + Term(expected[n], observed[n])
  }

  /** The Python type of the statistic: `result` starts as the int 0 and turns
      into a float with the first term, `1 / e` being true division. */
  function StatisticType(expected: seq<real>): NumberType
  {
    if expected == [] then IntType else FloatType
  }

  /** `chi_squared_test`: a ValueError when the lengths differ, otherwise the
      sum of (1/e)(e - o)^2 accumulated over the zipped pairs. */
  method ChiSquaredTest(expected: seq<real>, observed: seq<real>) returns (r: Result<real, Error>)
    requires |observed| == |expected| ==> NonZero(expected)
    ensures r.Failure? <==> |observed| != |expected|
    ensures r.Failure? ==> r.error == ValueError(SizeMismatch)
    ensures r.Failure? ==> Message(r.error.reason) == "[ERROR] The observed and expected data sets are not of the same size."
    ensures r.Success? ==> r.value == ChiSum(expected, observed)
  {
    var result := 0.0;
    if |observed| != |expected| {
      return Failure(ValueError(SizeMismatch));
    }
    for i := 0 to |expected|
      invariant result == ChiSum(expected[..i], observed[..i])
    {
      var e, o := expected[i], observed[i];
      assert expected[..i + 1][..i] == expected[..i];
      assert observed[..i + 1][..i] == observed[..i];
      result := result + (1.0 / e) * Square(e - o);
    }
    assert expected[..|expected|] == expected && observed[..|observed|] == observed;
    return Success(result);
  }

  lemma TermOfEqual(e: real)
    requires e != 0.0
    ensures Term(e, e) == 0.0
  {
  }

  lemma ProductPositive(a: real, b: real)
    requires a > 0.0 && b > 0.0
    ensures a * b > 0.0
  {
  }

  function Abs(x: real): real
  {
    if x >= 0.0 then x else -x
  }

  /** The square of a non-zero number is positive: d * d is written as the
      product of d (or -d) and |d|, so that the sign rule for products
      applies. */
  lemma SquarePositive(d: real)
    requires d != 0.0
    ensures Square(d) > 0.0
  {
    if d > 0.0 {
      assert Square(d) == d * Abs(d);
      ProductPositive(d, Abs(d));
    } else {
      assert Square(d) == (-d) * Abs(d);
      ProductPositive(-d, Abs(d));
    }
  }

  /** A mismatch scores strictly above 0. */
  lemma TermPositive(e: real, o: real)
    requires e > 0.0 && e != o
    ensures Term(e, o) > 0.0
  {
    SquarePositive(e - o);
    ProductPositive(1.0 / e, Square(e - o));
  }

  lemma TermSign(e: real, o: real)
    requires e > 0.0
    ensures Term(e, o) >= 0.0
    ensures Term(e, o) == 0.0 <==> e == o
  {
    if e == o {
      TermOfEqual(e);
    } else {
      TermPositive(e, o);
    }
  }

  /** A perfect fit scores 0. */
  lemma {:induction false} ChiSumOfEqualIsZero(expected: seq<real>)
    requires NonZero(expected)
    ensures ChiSum(expected, expected) == 0.0
  {
    if expected != [] {
      var n := |expected| - 1;
      ChiSumOfEqualIsZero(expected[..n]);
      TermOfEqual(expected[n]);
    }
  }

  /** With positive expected counts the statistic is never negative, and it is
      0 exactly when every observed count equals its expected count. */
  lemma {:induction false} ChiSumSign(expected: seq<real>, observed: seq<real>)
    requires |expected| == |observed| && Positive(expected)
    ensures ChiSum(expected, observed) >= 0.0
    ensures ChiSum(expected, observed) == 0.0 <==> expected == observed
  {
    if expected != [] {
      var n := |expected| - 1;
      ChiSumSign(expected[..n], observed[..n]);
      TermSign(expected[n], observed[n]);
      if ChiSum(expected, observed) == 0.0 {
        assert expected == expected[..n] + [expected[n]];
        assert observed == observed[..n] + [observed[n]];
      }
    }
  }

  /** Two checks of the formula: a perfect fit, and 100/100 + 100/50 == 3. */
  lemma ChiSumExamples()
    ensures ChiSum([10.0, 10.0], [10.0, 10.0]) == 0.0
    ensures ChiSum([100.0, 50.0], [90.0, 60.0]) == 3.0
  {
    ChiSumOfEqualIsZero([10.0, 10.0]);
    assert [100.0, 50.0][..1] == [100.0] && [90.0, 60.0][..1] == [90.0];
    assert [100.0][..0] == [] && [90.0][..0] == [];
    assert ChiSum([100.0], [90.0]) == Term(100.0, 90.0);
  }

  // ---------------------------------------------------------------------
  // The critical-value lookup

  /** The last column of the header that holds x, if any. */
  function LastMatch(header: seq<real>, x: real): (c: Option<nat>)
    ensures c.Some? ==> c.value < |header| && header[c.value] == x
    ensures c.Some? ==> forall j :: c.value < j < |header| ==> header[j] != x
    ensures c.None? ==> forall j :: 0 <= j < |header| ==> header[j] != x
  {
    if header == [] then None
    else if header[|header| - 1] == x then Some(|header| - 1)
    else LastMatch(header[..|header| - 1], x)
  }

  /** What the lookup reads exists: the source indexes the row with no check. */
  predicate CellExists(rows: seq<seq<real>>, dof: int, p: real)
    requires |rows| > 0
  {
    var col := LastMatch(rows[0], 1.0 - p);
    col.Some? && col.value != 0 && 0 <= dof < |rows| ==> col.value < |rows[dof]|
  }

  /** The value `chi_square_critical_value` returns for an in-memory table:
      the entry of row dof in the last header column equal to 1 - p, provided
      that column is not column 0 and dof is a row of the table. */
  function CriticalValueLookup(rows: seq<seq<real>>, dof: int, p: real): Option<real>
    requires |rows| > 0 && CellExists(rows, dof, p)
  {
    var col := LastMatch(rows[0], 1.0 - p);
    if col.Some? && col.value != 0 && 0 <= dof < |rows| then Some(rows[dof][col.value]) else None
  }

  /** `chi_square_critical_value` after the table has been read: scans the
      header, remembering the latest column equal to 1 - p. */
  method ChiSquareCriticalValue(rows: seq<seq<real>>, dof: int, p: real := 0.05) returns (r: Option<real>)
    requires |rows| > 0 && CellExists(rows, dof, p)
    ensures r == CriticalValueLookup(rows, dof, p)
  {
    var colNum: Option<nat> := None;
    for colIdx := 0 to |rows[0]|
      invariant colNum == LastMatch(rows[0][..colIdx], 1.0 - p)
    {
      assert rows[0][..colIdx + 1][..colIdx] == rows[0][..colIdx];
      if rows[0][colIdx] == 1.0 - p {
        colNum := Some(colIdx);
      }
    }
    assert rows[0][..|rows[0]|] == rows[0];
    if colNum.Some? && colNum.value != 0 && 0 <= dof < |rows| {
      return Some(rows[dof][colNum.value]);
    }
    return None;
  }

  /** c is the last header column holding x. */
  predicate IsLastMatch(header: seq<real>, x: real, c: nat)
  {
    c < |header| && header[c] == x && forall j :: c < j < |header| ==> header[j] != x
  }

  /** LastMatch finds exactly the last column holding x. */
  lemma LastMatchIsLast(header: seq<real>, x: real, c: nat)
    requires IsLastMatch(header, x, c)
    ensures LastMatch(header, x) == Some(c)
  {
  }

  /** With c the last header column equal to 1 - p, the lookup yields
      rows[dof][c] exactly when c != 0 and 0 <= dof < |rows|. */
  lemma CriticalValueFound(rows: seq<seq<real>>, dof: int, p: real, c: nat)
    requires |rows| > 0 && CellExists(rows, dof, p)
    requires IsLastMatch(rows[0], 1.0 - p, c)
    ensures CriticalValueLookup(rows, dof, p).Some? <==> c != 0 && 0 <= dof < |rows|
    ensures CriticalValueLookup(rows, dof, p).Some? ==>
      c < |rows[dof]| && CriticalValueLookup(rows, dof, p).value == rows[dof][c]
  {
    LastMatchIsLast(rows[0], 1.0 - p, c);
  }

  /** With no header column equal to 1 - p, the lookup yields nothing. */
  lemma CriticalValueMissing(rows: seq<seq<real>>, dof: int, p: real)
    requires |rows| > 0
    requires forall j :: 0 <= j < |rows[0]| ==> rows[0][j] != 1.0 - p
    ensures CellExists(rows, dof, p)
    ensures CriticalValueLookup(rows, dof, p).None?
  {
  }

  /** A match in column 0 counts as a miss (the column index 0 is falsy). */
  lemma ColumnZeroIsMiss(rows: seq<seq<real>>, dof: int, p: real)
    requires |rows| > 0 && |rows[0]| > 0 && rows[0][0] == 1.0 - p
    requires forall j :: 0 < j < |rows[0]| ==> rows[0][j] != 1.0 - p
    ensures CellExists(rows, dof, p)
    ensures CriticalValueLookup(rows, dof, p) == None
  {
    var col := LastMatch(rows[0], 1.0 - p);
    assert col == Some(0);
  }

  /** dof = 0 reads the header row itself, so a hit returns 1 - p. */
  lemma DofZeroReadsHeader(rows: seq<seq<real>>, p: real)
    requires |rows| > 0 && CellExists(rows, 0, p)
    requires CriticalValueLookup(rows, 0, p).Some?
    ensures CriticalValueLookup(rows, 0, p).value == 1.0 - p
  {
  }

  // ---------------------------------------------------------------------
  // The decision

  /** `reject_null_hypothesis`: the statistic, then the critical value, then
      `statistic > critical value`; comparing with a missing critical value is
      the TypeError Python 3 raises for `int > None` or `float > None`. */
  function RejectNullHypothesis(expected: seq<real>, observed: seq<real>, rows: seq<seq<real>>, dof: int, p: real := 0.05): (r: Result<bool, Error>)
    requires |observed| == |expected| ==> NonZero(expected) && |rows| > 0 && CellExists(rows, dof, p)
    ensures |observed| != |expected| ==> r == Failure(ValueError(SizeMismatch))
    ensures |observed| == |expected| && CriticalValueLookup(rows, dof, p).None? ==>
      r == Failure(TypeError(NoneComparison(StatisticType(expected))))
    ensures r.Success? <==> |observed| == |expected| && CriticalValueLookup(rows, dof, p).Some?
    ensures r.Success? ==> (r.value <==> ChiSum(expected, observed) > CriticalValueLookup(rows, dof, p).value)
  {
    if |observed| != |expected| then Failure(ValueError(SizeMismatch))
    else
      var chiSquared := ChiSum(expected, observed);
      match CriticalValueLookup(rows, dof, p)
      case None => Failure(TypeError(NoneComparison(StatisticType(expected))))
      case Some(criticalValue) => Success(chiSquared > criticalValue)
  }

  /** The messages `reject_null_hypothesis` fails with: the size mismatch
      first, then the comparison with `None`, whose left operand is the int 0
      for empty data and a float otherwise. */
  lemma RejectionMessages(expected: seq<real>, observed: seq<real>, rows: seq<seq<real>>, dof: int, p: real)
    requires |observed| == |expected| ==> NonZero(expected) && |rows| > 0 && CellExists(rows, dof, p)
    ensures |observed| != |expected| ==>
      Message(RejectNullHypothesis(expected, observed, rows, dof, p).error.reason)
      == "[ERROR] The observed and expected data sets are not of the same size."
    ensures |observed| == |expected| == 0 && CriticalValueLookup(rows, dof, p).None? ==>
      Message(RejectNullHypothesis(expected, observed, rows, dof, p).error.reason)
      == "'>' not supported between instances of 'int' and 'NoneType'"
    ensures |observed| == |expected| > 0 && CriticalValueLookup(rows, dof, p).None? ==>
      Message(RejectNullHypothesis(expected, observed, rows, dof, p).error.reason)
      == "'>' not supported between instances of 'float' and 'NoneType'"
  {
  }

  /** A perfect fit is never rejected against a non-negative critical value. */
  lemma PerfectFitIsKept(expected: seq<real>, rows: seq<seq<real>>, dof: int, p: real)
    requires NonZero(expected) && |rows| > 0 && CellExists(rows, dof, p)
    requires CriticalValueLookup(rows, dof, p).Some? && CriticalValueLookup(rows, dof, p).value >= 0.0
    ensures RejectNullHypothesis(expected, expected, rows, dof, p) == Success(false)
  {
    ChiSumOfEqualIsZero(expected);
  }

  /** A rejection against a non-negative critical value, with positive expected
      counts, means some observed count differs from its expected count. */
  lemma RejectionMeansMisfit(expected: seq<real>, observed: seq<real>, rows: seq<seq<real>>, dof: int, p: real)
    requires |observed| == |expected| && Positive(expected) && |rows| > 0 && CellExists(rows, dof, p)
    requires CriticalValueLookup(rows, dof, p).Some? && CriticalValueLookup(rows, dof, p).value >= 0.0
    requires RejectNullHypothesis(expected, observed, rows, dof, p) == Success(true)
    ensures observed != expected
  {
    if observed == expected {
      ChiSumSign(expected, observed);
    }
  }
}
