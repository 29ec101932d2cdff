/** The tabular values the scraper passes around: a pandas DataFrame as an
    ordered list of column names and a list of rows of cells. */
module Frames {

  /** A DataFrame cell: missing (NaN/None) or a string. */
  datatype Cell = Null | Str(s: string)

  datatype Option<T> = None | Some(value: T)

  /** A DataFrame: column names in order, and rows of cells in the same order. */
  datatype Table = Table(columns: seq<string>, rows: seq<seq<Cell>>) {

    /** Every row has one cell per column, as pandas guarantees. */
    predicate Rectangular() {
      forall i :: 0 <= i < |rows| ==> |rows[i]| == |columns|
    }

    /** DataFrame.empty: no columns or no rows. */
    predicate IsEmpty() {
      |columns| == 0 || |rows| == 0
    }
  }

  /** pd.DataFrame(): the empty frame. */
  const EmptyTable: Table := Table([], [])

  /** Position of the first column named x. */
  function IndexOf(xs: seq<string>, x: string): (i: nat)
    requires x in xs
    ensures i < |xs| && xs[i] == x
    ensures forall k :: 0 <= k < i ==> xs[k] != x
  {
    if xs[0] == x then 0 else 1 + IndexOf(xs[1..], x)
  }

  /** xs with x inserted so that it ends up at position k. */
  function InsertAt<T>(xs: seq<T>, k: nat, x: T): (r: seq<T>)
    requires k <= |xs|
    ensures |r| == |xs| + 1 && r[k] == x
    ensures r[..k] == xs[..k] && r[k + 1..] == xs[k..]
  {
    xs[..k] + [x] + xs[k..]
  }
}
