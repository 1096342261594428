/**
 * The hand-written indicator column builders. Each takes a frame, derives
 * one column from its Close prices and joins it under a formatted name.
 * TA-lib's SMA is modelled as the trailing window mean.
 */
module TechnicalIndicators {
  import opened Wrappers
  import opened Series
  import opened Frames
  import Decimal

  const CLOSE: string := "Close"

  /** The frame's Close column, when present, is a positive price series. */
  predicate PricedFrame(df: Frame) {
    WellFormed(df) && (CLOSE in df.columns ==> Positive(df.columns[CLOSE]))
  }

  /** The mean of the w prices ending at row t. */
  function TrailingMean(c: Column, t: nat, w: nat): real
    requires Defined(c) && 1 <= w <= t + 1 <= |c|
  {
    Mean(Values(c[t + 1 - w..t + 1]))
  }

  /** A trailing mean of positive prices is positive. */
  lemma TrailingMeanPositive(c: Column, t: nat, w: nat)
    requires Positive(c) && 1 <= w <= t + 1 <= |c|
    ensures TrailingMean(c, t, w) > 0.0
  {
    MeanPositive(Values(c[t + 1 - w..t + 1]));
  }

  /** The mean of the w prices starting at row t. */
  function LeadingMean(c: Column, t: nat, w: nat): real
    requires Defined(c) && 1 <= w && t + w <= |c|
  {
    Mean(Values(c[t..t + w]))
  }

  // ---- momentum ---------------------------------------------------------

  function MomentumName(n: int): string {
    "MOM_" + Decimal.IntToString(n)
  }

  /** momentum(df, n): joins MOM_n = Close.diff(n). */
  function Momentum(df: Frame, n: int): (r: Result<Frame, FrameError>)
    requires WellFormed(df)
    ensures CLOSE !in df.columns ==> r == Failure(MissingColumn(CLOSE))
    ensures CLOSE in df.columns ==> (r.Failure? <==> MomentumName(n) in df.columns)
    ensures CLOSE in df.columns && r.Failure? ==> r.error == ColumnsOverlap(MomentumName(n))
    ensures r.Success? ==> AppendsColumn(df, r.value, MomentumName(n), Diff(df.columns[CLOSE], n))
    ensures r.Success? ==> forall t {:trigger r.value.columns[MomentumName(n)][t]} :: 0 <= t < df.rows ==>
      r.value.columns[MomentumName(n)][t] ==
        (if 0 <= t - n < df.rows then SubCell(df.columns[CLOSE][t], df.columns[CLOSE][t - n]) else None)
  {
    match GetColumn(df, CLOSE)
    case Failure(e) => Failure(e)
    case Success(close) =>
      DiffRows(close, n);
      Join(df, MomentumName(n), Diff(close, n))
  }

  lemma DiffRows(c: Column, n: int)
    ensures forall t {:trigger Diff(c, n)[t]} :: 0 <= t < |c| ==>
      Diff(c, n)[t] == if 0 <= t - n < |c| then SubCell(c[t], c[t - n]) else None
  {
    forall t | 0 <= t < |c| {
      DiffAt(c, n, t);
    }
  }

  /** On complete prices, MOM_n is undefined exactly on the first n rows. */
  lemma MomentumWarmUp(df: Frame, n: nat, t: nat)
    requires WellFormed(df) && CLOSE in df.columns && Defined(df.columns[CLOSE])
    requires MomentumName(n) !in df.columns && t < df.rows
    ensures Momentum(df, n).Success?
    ensures Momentum(df, n).value.columns[MomentumName(n)][t] ==
      if t < n then None else Some(df.columns[CLOSE][t].value - df.columns[CLOSE][t - n].value)
  {
  }

  /** MOM_5 of the prices 1, 2, ..., 7: rows 0-4 undefined, row 5 is 6 - 1. */
  lemma MomentumExample()
    ensures
      var prices := [Some(1.0), Some(2.0), Some(3.0), Some(4.0), Some(5.0), Some(6.0), Some(7.0)];
      var df := Frame(7, [CLOSE], map[CLOSE := prices]);
      && WellFormed(df)
      && Momentum(df, 5).Success?
      && Momentum(df, 5).value.columns[MomentumName(5)][5] == Some(5.0)
      && (forall t :: 0 <= t < 5 ==> Momentum(df, 5).value.columns[MomentumName(5)][t] == None)
  {
    var prices := [Some(1.0), Some(2.0), Some(3.0), Some(4.0), Some(5.0), Some(6.0), Some(7.0)];
    var df := Frame(7, [CLOSE], map[CLOSE := prices]);
    assert MomentumName(5) != CLOSE by {
      assert MomentumName(5)[0] == 'M';
    }
  }

  // ---- rate of change ---------------------------------------------------

  function RocName(n: int): string {
    "ROC_" + Decimal.IntToString(n)
  }

  /**
   * ROC_n by rows: the percent change over n rows, except that row 4 is
   * the literal 0.1 whenever n >= 5.
   */
  function RocReference(c: Column, n: int): (r: Column)
    requires Positive(c)
    ensures |r| == |c|
  {
    seq(|c|, t requires 0 <= t < |c| =>
      if n >= 5 && t == 4 then Some(0.1)
      else if 0 <= t - n < |c| then Some((c[t].value / c[t - n].value - 1.0) * 100.0)
      else None)
  }

  /** Close.pct_change(n) * 100 by rows, on a positive series. */
  lemma PercentChangeRows(c: Column, n: int)
    requires Positive(c)
    ensures forall t {:trigger Scale(PctChange(c, n), 100.0)[t]} :: 0 <= t < |c| ==>
      Scale(PctChange(c, n), 100.0)[t] ==
        if 0 <= t - n < |c| then Some((c[t].value / c[t - n].value - 1.0) * 100.0) else None
  {
    forall t | 0 <= t < |c| {
      PercentChangeAt(c, n, t);
    }
  }

  lemma PercentChangeAt(c: Column, n: int, t: int)
    requires Positive(c) && 0 <= t < |c|
    ensures Scale(PctChange(c, n), 100.0)[t] ==
      if 0 <= t - n < |c| then Some((c[t].value / c[t - n].value - 1.0) * 100.0) else None
  {
    PctChangeAt(c, n, t);
  }

  lemma RocReferenceAt(c: Column, n: int, t: int)
    requires Positive(c) && 0 <= t < |c| && !(n >= 5 && t == 4)
    ensures RocReference(c, n)[t] ==
      if 0 <= t - n < |c| then Some((c[t].value / c[t - n].value - 1.0) * 100.0) else None
  {
  }

  /** The frame rate_of_change returns, stated through RocReference. */
  function RocFrame(df: Frame, n: int): (r: Result<Frame, FrameError>)
    requires PricedFrame(df)
  {
    match GetColumn(df, CLOSE)
    case Failure(e) => Failure(e)
    case Success(close) => Success(AddIfAbsent(df, RocName(n), RocReference(close, n)))
  }

  /**
   * rate_of_change(df, n): computes Close.pct_change(n) * 100, overwrites
   * row 4 with 0.1 when n >= 5, and joins the column only if no column of
   * that name exists yet. On a frame of fewer than five rows the write to
   * label 4 enlarges the series by one label, which the left join drops,
   * so the frame is not affected by it.
   */
  method RateOfChange(df: Frame, n: int) returns (r: Result<Frame, FrameError>)
    requires PricedFrame(df)
    ensures r == RocFrame(df, n)
  {
    var closeColumn := GetColumn(df, CLOSE);
    if closeColumn.Failure? {
      return Failure(closeColumn.error);
    }
    var close := closeColumn.value;
    var roc := Scale(PctChange(close, n), 100.0);
    ghost var raw := roc;
    if n >= 5 && 4 < |roc| {
      roc := roc[4 := Some(0.1)];
    }
    OverriddenRocMatches(close, n, raw, roc);
    if RocName(n) !in df.columns {
      r := Join(df, RocName(n), roc);
    } else {
      r := Success(df);
    }
  }

  /** The pct_change column with its row-4 override is RocReference. */
  lemma OverriddenRocMatches(c: Column, n: int, raw: Column, roc: Column)
    requires Positive(c) && raw == Scale(PctChange(c, n), 100.0)
    requires roc == if n >= 5 && 4 < |raw| then raw[4 := Some(0.1)] else raw
    ensures roc == RocReference(c, n)
  {
    var expected := RocReference(c, n);
    forall t | 0 <= t < |c|
      ensures roc[t] == expected[t]
    {
      PercentChangeAt(c, n, t);
    }
  }

  /**
   * What rate_of_change returns: KeyError without Close; the frame itself
   * when ROC_n is already a column; otherwise the frame with ROC_n
   * appended, holding the percent change over n rows (undefined where
   * row t-n does not exist) and, when n >= 5, the literal 0.1 at row 4.
   */
  lemma RocFrameContract(df: Frame, n: int)
    requires PricedFrame(df)
    ensures CLOSE !in df.columns ==> RocFrame(df, n) == Failure(MissingColumn(CLOSE))
    ensures CLOSE in df.columns && RocName(n) in df.columns ==> RocFrame(df, n) == Success(df)
    ensures CLOSE in df.columns && RocName(n) !in df.columns ==>
      && RocFrame(df, n).Success?
      && AppendsColumn(df, RocFrame(df, n).value, RocName(n), RocFrame(df, n).value.columns[RocName(n)])
      && (forall t {:trigger RocFrame(df, n).value.columns[RocName(n)][t]} ::
            0 <= t < df.rows && !(n >= 5 && t == 4) ==>
            RocFrame(df, n).value.columns[RocName(n)][t] ==
              if 0 <= t - n < df.rows
              then Some((df.columns[CLOSE][t].value / df.columns[CLOSE][t - n].value - 1.0) * 100.0)
              else None)
      && (n >= 5 && df.rows > 4 ==> RocFrame(df, n).value.columns[RocName(n)][4] == Some(0.1))
  {
    if CLOSE in df.columns && RocName(n) !in df.columns {
      var close := df.columns[CLOSE];
      var col := RocReference(close, n);
      var once := AddIfAbsent(df, RocName(n), col);
      assert RocFrame(df, n) == Success(once);
      assert once.columns[RocName(n)] == col;
      RocReferenceRows(close, n);
    }
  }

  /** RocReference row by row, away from the row-4 override. */
  lemma RocReferenceRows(c: Column, n: int)
    requires Positive(c)
    ensures forall t {:trigger RocReference(c, n)[t]} :: 0 <= t < |c| && !(n >= 5 && t == 4) ==>
      RocReference(c, n)[t] == if 0 <= t - n < |c| then Some((c[t].value / c[t - n].value - 1.0) * 100.0) else None
  {
    forall t | 0 <= t < |c| && !(n >= 5 && t == 4) {
      RocReferenceAt(c, n, t);
    }
  }

  /** Applying rate_of_change twice with the same n is applying it once. */
  lemma RocIdempotent(df: Frame, n: int)
    requires PricedFrame(df)
    ensures RocFrame(df, n).Success? ==>
      && PricedFrame(RocFrame(df, n).value)
      && RocFrame(RocFrame(df, n).value, n) == RocFrame(df, n)
  {
    if CLOSE in df.columns {
      var once := RocFrame(df, n).value;
      assert once.columns[CLOSE] == df.columns[CLOSE];
      assert RocName(n) in once.columns;
    }
  }

  /** The guard is per period: different periods name different columns. */
  lemma RocNamesDistinct(m: int, n: int)
    ensures RocName(m) == RocName(n) <==> m == n
  {
    if RocName(m) == RocName(n) {
      assert Decimal.IntToString(m) == RocName(m)[4..];
      assert Decimal.IntToString(n) == RocName(n)[4..];
      Decimal.IntToStringInjective(m, n);
    }
  }

  // ---- future moving average -------------------------------------------

  function FsmaName(n: int): string {
    "FSMA_" + Decimal.IntToString(n)
  }

  /**
   * FSMA_n at row t, from the prices directly: the mean of rows
   * t..t+n-1 relative to the price at row t-1, defined exactly for
   * 1 <= t <= |c| - n.
   */
  function FsmaAt(c: Column, n: nat, t: nat): Cell
    requires n >= 1 && Positive(c) && t < |c|
  {
    if 1 <= t && t + n <= |c|
    then Some((LeadingMean(c, t, n) - c[t - 1].value) / c[t - 1].value)
    else None
  }

  /**
   * The FSMA_n column as the source builds it: the Close series reversed,
   * its rolling mean and its shift(-1), both taken on the reversed
   * series, combined row by row; the final Reverse is the join, which
   * puts each value back at its original index label.
   */
  function FsmaColumn(c: Column, n: nat): (r: Column)
    requires n >= 1 && Positive(c)
    ensures |r| == |c|
  {
    var reversed := Reverse(c);
    var futureMean := RollingMean(reversed, n);
    var previous := Shift(reversed, -1);
    PreviousPositive(c);
    Reverse(Div(Sub(futureMean, previous), previous))
  }

  /** Position i of the reversed series shifted by -1 holds the price of row |c|-2-i. */
  lemma PreviousAt(c: Column, i: nat)
    requires i < |c|
    ensures Shift(Reverse(c), -1)[i] == if i + 1 < |c| then c[|c| - 2 - i] else None
  {
    ShiftAt(Reverse(c), -1, i);
    if i + 1 < |c| {
      ReverseAt(c, i + 1);
    }
  }

  lemma PreviousPositive(c: Column)
    requires Positive(c)
    ensures forall i :: 0 <= i < |c| && Shift(Reverse(c), -1)[i].Some? ==> Shift(Reverse(c), -1)[i].value > 0.0
  {
    forall i | 0 <= i < |c| {
      PreviousAt(c, i);
    }
  }

  /**
   * The rolling mean of the reversed series, read at the position of row
   * t, is the mean of the n prices from row t on.
   */
  lemma FutureMeanAt(c: Column, n: nat, t: nat)
    requires n >= 1 && Positive(c) && t < |c|
    ensures RollingMean(Reverse(c), n)[|c| - 1 - t] == if t + n <= |c| then Some(LeadingMean(c, t, n)) else None
  {
    var i := |c| - 1 - t;
    var reversed := Reverse(c);
    if t + n <= |c| {
      var window := reversed[i + 1 - n..i + 1];
      forall j | 0 <= j < n
        ensures window[j] == c[t + n - 1 - j]
      {
        ReverseAt(c, i + 1 - n + j);
      }
      assert Defined(window);
      var ahead, behind := Values(c[t..t + n]), Values(window);
      assert forall j :: 0 <= j < n ==> behind[j] == ahead[n - 1 - j];
      SumReversed(ahead, behind);
    }
  }

  /**
   * FSMA_n as the source builds it is the closed form: row 0 and the
   * last n-1 rows are undefined.
   */
  lemma FsmaClosedForm(c: Column, n: nat, t: nat)
    requires n >= 1 && Positive(c) && t < |c|
    ensures FsmaColumn(c, n)[t] == FsmaAt(c, n, t)
  {
    var i := |c| - 1 - t;
    FsmaColumnAt(c, n, t);
    PreviousAt(c, i);
    FutureMeanAt(c, n, t);
  }

  /** Row t of FSMA_n combines the two reversed-series cells at position |c|-1-t. */
  lemma FsmaColumnAt(c: Column, n: nat, t: nat)
    requires n >= 1 && Positive(c) && t < |c|
    ensures Shift(Reverse(c), -1)[|c| - 1 - t].Some? ==> Shift(Reverse(c), -1)[|c| - 1 - t].value > 0.0
    ensures FsmaColumn(c, n)[t] ==
      DivCell(SubCell(RollingMean(Reverse(c), n)[|c| - 1 - t], Shift(Reverse(c), -1)[|c| - 1 - t]),
              Shift(Reverse(c), -1)[|c| - 1 - t])
  {
    var i := |c| - 1 - t;
    var futureMean := RollingMean(Reverse(c), n);
    var previous := Shift(Reverse(c), -1);
    PreviousPositive(c);
    var difference := Sub(futureMean, previous);
    var combined := Div(difference, previous);
    assert FsmaColumn(c, n) == Reverse(combined);
    ReverseAt(combined, t);
    DivAt(difference, previous, i);
    SubAt(futureMean, previous, i);
  }

  lemma FsmaClosedFormAll(c: Column, n: nat)
    requires n >= 1 && Positive(c)
    ensures forall t :: 0 <= t < |c| ==> FsmaColumn(c, n)[t] == FsmaAt(c, n, t)
  {
    forall t | 0 <= t < |c| {
      FsmaClosedForm(c, n, t);
    }
  }

  /** future_moving_average(df, n): joins FSMA_n. */
  function FutureMovingAverage(df: Frame, n: nat): (r: Result<Frame, FrameError>)
    requires PricedFrame(df) && n >= 1
    ensures CLOSE !in df.columns ==> r == Failure(MissingColumn(CLOSE))
    ensures CLOSE in df.columns ==> (r.Failure? <==> FsmaName(n) in df.columns)
    ensures CLOSE in df.columns && r.Failure? ==> r.error == ColumnsOverlap(FsmaName(n))
    ensures r.Success? ==> AppendsColumn(df, r.value, FsmaName(n), FsmaColumn(df.columns[CLOSE], n))
    ensures r.Success? ==> forall t :: 0 <= t < df.rows ==>
      r.value.columns[FsmaName(n)][t] == FsmaAt(df.columns[CLOSE], n, t)
  {
    match GetColumn(df, CLOSE)
    case Failure(e) => Failure(e)
    case Success(close) =>
      FsmaClosedFormAll(close, n);
      Join(df, FsmaName(n), FsmaColumn(close, n))
  }

  // ---- simple moving average ratio -------------------------------------

  function SmaName(small: int, big: int): string {
    "SMA_" + Decimal.IntToString(small) + "_" + Decimal.IntToString(big)
  }

  /**
   * The SMA ratio at row t, from the trailing means directly: defined
   * from row max(small, big) - 1 on.
   */
  function SmaRatioAt(c: Column, small: nat, big: nat, t: nat): Cell
    requires small >= 1 && big >= 1 && Positive(c) && t < |c|
  {
    if t + 1 >= small && t + 1 >= big
    then TrailingMeanPositive(c, t, small);
      Some((TrailingMean(c, t, big) - TrailingMean(c, t, small)) / TrailingMean(c, t, small))
    else None
  }

  /** (SMA_big - SMA_small) / SMA_small, row by row. */
  function SmaRatioColumn(c: Column, small: nat, big: nat): (r: Column)
    requires small >= 1 && big >= 1 && Positive(c)
    ensures |r| == |c|
  {
    RollingMeanPositive(c, small);
    var maSmall := RollingMean(c, small);
    var maBig := RollingMean(c, big);
    Div(Sub(maBig, maSmall), maSmall)
  }

  /** SMA_s_b is defined from row max(s, b) - 1 on, as the ratio of the two trailing means. */
  lemma SmaRatioClosedForm(c: Column, small: nat, big: nat)
    requires small >= 1 && big >= 1 && Positive(c)
    ensures forall t :: 0 <= t < |c| ==> SmaRatioColumn(c, small, big)[t] == SmaRatioAt(c, small, big, t)
  {
    RollingMeanPositive(c, small);
    RollingMeanPositive(c, big);
  }

  /** On a constant positive price series every defined ratio is 0. */
  lemma SmaRatioConstant(c: Column, small: nat, big: nat, p: real)
    requires small >= 1 && big >= 1 && p > 0.0
    requires forall t :: 0 <= t < |c| ==> c[t] == Some(p)
    ensures forall t :: 0 <= t < |c| && SmaRatioColumn(c, small, big)[t].Some? ==>
      SmaRatioColumn(c, small, big)[t].value == 0.0
  {
    SmaRatioClosedForm(c, small, big);
    forall t | 0 <= t < |c| && t + 1 >= small && t + 1 >= big
      ensures TrailingMean(c, t, big) == p && TrailingMean(c, t, small) == p
    {
      MeanConstant(Values(c[t + 1 - big..t + 1]), p);
      MeanConstant(Values(c[t + 1 - small..t + 1]), p);
    }
  }

  /** moving_average(df, small_win, big_win): joins SMA_small_big. */
  function MovingAverage(df: Frame, small: nat, big: nat): (r: Result<Frame, FrameError>)
    requires PricedFrame(df) && small >= 1 && big >= 1
    ensures CLOSE !in df.columns ==> r == Failure(MissingColumn(CLOSE))
    ensures CLOSE in df.columns ==> (r.Failure? <==> SmaName(small, big) in df.columns)
    ensures CLOSE in df.columns && r.Failure? ==> r.error == ColumnsOverlap(SmaName(small, big))
    ensures r.Success? ==> AppendsColumn(df, r.value, SmaName(small, big), SmaRatioColumn(df.columns[CLOSE], small, big))
    ensures r.Success? ==> forall t :: 0 <= t < df.rows ==>
      r.value.columns[SmaName(small, big)][t] == SmaRatioAt(df.columns[CLOSE], small, big, t)
  {
    match GetColumn(df, CLOSE)
    case Failure(e) => Failure(e)
    case Success(close) =>
      SmaRatioClosedForm(close, small, big);
      Join(df, SmaName(small, big), SmaRatioColumn(close, small, big))
  }
}
