/**
 * The pandas Series operations the indicator builders are made of, on a
 * column of cells where None stands for an undefined (NaN) value.
 * Arithmetic on cells is NaN-propagating, as in floating point: a result
 * is defined only when every operand is. Prices are exact reals.
 */
module Series {
  import opened Wrappers

  type Cell = Option<real>
  type Column = seq<Cell>

  /** Sum of a finite sequence of reals. */
  function Sum(s: seq<real>): real {
    if |s| == 0 then 0.0 else s[0] + Sum(s[1..])
  }

  function Mean(s: seq<real>): real
    requires |s| > 0
  {
    Sum(s) / |s| as real
  }

  /** No undefined cell. */
  predicate Defined(c: Column) {
    forall t :: 0 <= t < |c| ==> c[t].Some?
  }

  /** Every cell defined and strictly positive, as a price series is. */
  predicate Positive(c: Column) {
    forall t :: 0 <= t < |c| ==> c[t].Some? && c[t].value > 0.0
  }

  /** The values of a column that has no undefined cell. */
  function Values(c: Column): (v: seq<real>)
    requires Defined(c)
    ensures |v| == |c|
  {
    seq(|c|, t requires 0 <= t < |c| => c[t].value)
  }

  // ---- cell arithmetic --------------------------------------------------

  function SubCell(x: Cell, y: Cell): Cell {
    if x.Some? && y.Some? then Some(x.value - y.value) else None
  }

  /** Division by zero (which floating point turns into inf or NaN) is excluded. */
  function DivCell(x: Cell, y: Cell): Cell
    requires x.Some? && y.Some? ==> y.value != 0.0
  {
    if x.Some? && y.Some? then Some(x.value / y.value) else None
  }

  // ---- column operations ------------------------------------------------

  /** a - b, row by row (the two series share one index). */
  function Sub(a: Column, b: Column): (r: Column)
    requires |a| == |b|
    ensures |r| == |a|
  {
    seq(|a|, t requires 0 <= t < |a| => SubCell(a[t], b[t]))
  }

  /** a / b, row by row. */
  function Div(a: Column, b: Column): (r: Column)
    requires |a| == |b|
    requires forall t :: 0 <= t < |a| ==> (a[t].Some? && b[t].Some? ==> b[t].value != 0.0)
    ensures |r| == |a|
  {
    seq(|a|, t requires 0 <= t < |a| => DivCell(a[t], b[t]))
  }

  /** c + k, row by row. */
  function AddConst(c: Column, k: real): (r: Column)
    ensures |r| == |c|
  {
    seq(|c|, t requires 0 <= t < |c| => if c[t].Some? then Some(c[t].value + k) else None)
  }

  /** c * k, row by row. */
  function Scale(c: Column, k: real): (r: Column)
    ensures |r| == |c|
  {
    seq(|c|, t requires 0 <= t < |c| => if c[t].Some? then Some(c[t].value * k) else None)
  }

  /**
   * Series.shift(k): row t receives the value of row t - k; rows with no
   * such source row become NaN. A negative k shifts towards the start.
   */
  function Shift(c: Column, k: int): (r: Column)
    ensures |r| == |c|
  {
    seq(|c|, t requires 0 <= t < |c| => if 0 <= t - k < |c| then c[t - k] else None)
  }

  /** Series.diff(k) == c - c.shift(k). */
  function Diff(c: Column, k: int): (r: Column)
    ensures |r| == |c|
  {
    Sub(c, Shift(c, k))
  }

  /** Series.pct_change(k) == c / c.shift(k) - 1, on a series without NaN. */
  function PctChange(c: Column, k: int): (r: Column)
    requires Positive(c)
    ensures |r| == |c|
  {
    var lagged := Shift(c, k);
    AddConst(Div(c, lagged), -1.0)
  }

  /**
   * Series.rolling(window=w).mean(): row t is the mean of rows t-w+1..t
   * when all w of them exist and are defined, otherwise NaN.
   */
  function RollingMean(c: Column, w: nat): (r: Column)
    requires w >= 1
    ensures |r| == |c|
  {
    seq(|c|, t requires 0 <= t < |c| =>
      if t + 1 >= w && Defined(c[t + 1 - w..t + 1]) then Some(Mean(Values(c[t + 1 - w..t + 1]))) else None)
  }

  /** Series[::-1] read positionally. */
  function Reverse(c: Column): (r: Column)
    ensures |r| == |c|
  {
    seq(|c|, i requires 0 <= i < |c| => c[|c| - 1 - i])
  }

  // ---- the operations row by row ----------------------------------------

  lemma ShiftAt(c: Column, k: int, t: int)
    requires 0 <= t < |c|
    ensures Shift(c, k)[t] == if 0 <= t - k < |c| then c[t - k] else None
  {
  }

  lemma SubAt(a: Column, b: Column, t: int)
    requires |a| == |b| && 0 <= t < |a|
    ensures Sub(a, b)[t] == SubCell(a[t], b[t])
  {
  }

  lemma DivAt(a: Column, b: Column, t: int)
    requires |a| == |b| && 0 <= t < |a|
    requires forall t :: 0 <= t < |a| ==> (a[t].Some? && b[t].Some? ==> b[t].value != 0.0)
    ensures Div(a, b)[t] == DivCell(a[t], b[t])
  {
  }

  lemma DiffAt(c: Column, k: int, t: int)
    requires 0 <= t < |c|
    ensures Diff(c, k)[t] == if 0 <= t - k < |c| then SubCell(c[t], c[t - k]) else None
  {
    ShiftAt(c, k, t);
    SubAt(c, Shift(c, k), t);
  }

  lemma PctChangeAt(c: Column, k: int, t: int)
    requires Positive(c) && 0 <= t < |c|
    ensures PctChange(c, k)[t] == if 0 <= t - k < |c| then Some(c[t].value / c[t - k].value - 1.0) else None
  {
    ShiftAt(c, k, t);
  }

  lemma ReverseAt(c: Column, i: int)
    requires 0 <= i < |c|
    ensures Reverse(c)[i] == c[|c| - 1 - i]
  {
  }

  // ---- facts about sums and means ---------------------------------------

  lemma {:induction false} SumConstant(s: seq<real>, p: real)
    requires forall i :: 0 <= i < |s| ==> s[i] == p
    ensures Sum(s) == |s| as real * p
  {
    if |s| > 0 {
      SumConstant(s[1..], p);
    }
  }

  lemma {:induction false} SumPositive(s: seq<real>)
    requires |s| > 0
    requires forall i :: 0 <= i < |s| ==> s[i] > 0.0
    ensures Sum(s) > 0.0
  {
    if |s| > 1 {
      SumPositive(s[1..]);
    }
  }

  lemma {:induction false} SumLast(s: seq<real>)
    requires |s| > 0
    ensures Sum(s) == Sum(s[..|s| - 1]) + s[|s| - 1]
  {
    if |s| > 1 {
      assert s[1..][..|s[1..]| - 1] == s[..|s| - 1][1..];
      SumLast(s[1..]);
    }
  }

  /** A sum does not depend on the order in which it is taken. */
  lemma {:induction false} SumReversed(s: seq<real>, r: seq<real>)
    requires |r| == |s|
    requires forall i :: 0 <= i < |s| ==> r[i] == s[|s| - 1 - i]
    ensures Sum(r) == Sum(s)
  {
    if |s| > 0 {
      SumLast(s);
      SumReversed(s[..|s| - 1], r[1..]);
    }
  }

  /** The mean of a window of a constant series is that constant. */
  lemma MeanConstant(s: seq<real>, p: real)
    requires |s| > 0
    requires forall i :: 0 <= i < |s| ==> s[i] == p
    ensures Mean(s) == p
  {
    SumConstant(s, p);
  }

  lemma MeanPositive(s: seq<real>)
    requires |s| > 0
    requires forall i :: 0 <= i < |s| ==> s[i] > 0.0
    ensures Mean(s) > 0.0
  {
    SumPositive(s);
  }

  /** On a positive series every defined rolling mean is positive. */
  lemma RollingMeanPositive(c: Column, w: nat)
    requires w >= 1 && Positive(c)
    ensures forall t :: 0 <= t < |c| ==> (RollingMean(c, w)[t].Some? <==> t + 1 >= w)
    ensures forall t :: 0 <= t < |c| && RollingMean(c, w)[t].Some? ==> RollingMean(c, w)[t].value > 0.0
  {
    forall t | 0 <= t < |c| && t + 1 >= w
      ensures RollingMean(c, w)[t] == Some(Mean(Values(c[t + 1 - w..t + 1])))
      ensures Mean(Values(c[t + 1 - w..t + 1])) > 0.0
    {
      MeanPositive(Values(c[t + 1 - w..t + 1]));
    }
  }
}
