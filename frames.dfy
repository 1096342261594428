/**
 * A feature frame: a row count, the column names in insertion order and
 * the columns themselves, every one of them as long as the frame.
 * The rows are the positions 0 .. rows-1 of the frame's index.
 */
module Frames {
  import opened Wrappers
  import opened Series

  datatype Frame = Frame(rows: nat, names: seq<string>, columns: map<string, Column>)

  datatype FrameError =
    | MissingColumn(name: string)   // df[name] on an absent column (KeyError)
    | ColumnsOverlap(name: string)  // df.join(series) when the name is taken (ValueError)

  predicate WellFormed(df: Frame) {
    && (forall i, j :: 0 <= i < j < |df.names| ==> df.names[i] != df.names[j])
    && (forall i :: 0 <= i < |df.names| ==> df.names[i] in df.columns)
    && (forall name :: name in df.columns ==> name in df.names)
    && (forall name :: name in df.columns ==> |df.columns[name]| == df.rows)
  }

  /**
   * df' is df with exactly one more column, `name`, holding `col`, placed
   * last; the row count and every earlier column are unchanged.
   */
  predicate AppendsColumn(df: Frame, df': Frame, name: string, col: Column) {
    && WellFormed(df')
    && name !in df.columns
    && df'.rows == df.rows
    && df'.names == df.names + [name]
    && df'.columns.Keys == df.columns.Keys + {name}
    && df'.columns[name] == col
    && (forall other :: other in df.columns ==> df'.columns[other] == df.columns[other])
  }

  /** df[name]. */
  function GetColumn(df: Frame, name: string): (r: Result<Column, FrameError>)
    requires WellFormed(df)
    ensures r.Success? <==> name in df.columns
    ensures r.Failure? ==> r.error == MissingColumn(name)
    ensures r.Success? ==> r.value == df.columns[name] && |r.value| == df.rows
  {
    if name in df.columns then Success(df.columns[name]) else Failure(MissingColumn(name))
  }

  /** df.join(series): a left join on the shared index, refused when the name is taken. */
  function Join(df: Frame, name: string, col: Column): (r: Result<Frame, FrameError>)
    requires WellFormed(df) && |col| == df.rows
    ensures r.Failure? <==> name in df.columns
    ensures r.Failure? ==> r.error == ColumnsOverlap(name)
    ensures r.Success? ==> AppendsColumn(df, r.value, name, col)
  {
    if name in df.columns then Failure(ColumnsOverlap(name))
    else Success(Frame(df.rows, df.names + [name], df.columns[name := col]))
  }

  /** `if not name in df: df = df.join(series)`. */
  function AddIfAbsent(df: Frame, name: string, col: Column): (r: Frame)
    requires WellFormed(df) && |col| == df.rows
    ensures WellFormed(r) && r.rows == df.rows && name in r.columns
    ensures name in df.columns ==> r == df
    ensures name !in df.columns ==> AppendsColumn(df, r, name, col)
  {
    if name in df.columns then df else Join(df, name, col).value
  }

  /** Adding a column that is already present changes nothing. */
  lemma AddIfAbsentIdempotent(df: Frame, name: string, col: Column, col': Column)
    requires WellFormed(df) && |col| == df.rows && |col'| == df.rows
    ensures AddIfAbsent(AddIfAbsent(df, name, col), name, col') == AddIfAbsent(df, name, col)
  {
  }
}
