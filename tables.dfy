/**
 * Values, tables and frames shared by the two windowers, the tensor builder,
 * the labeller and the result-sink writer.
 */
module Tables {

  datatype Option<T> = None | Some(value: T)

  datatype Result<T, E> = Ok(value: T) | Err(error: E)

  /** A present cell value: a number or a piece of text. */
  datatype Value = Num(r: real) | Text(s: string)

  /** A table cell; None is a missing value (NaN or None in the data frame). */
  type Cell = Option<Value>

  /** The three accelerometer channels, in tensor-channel order. */
  datatype Axis = X | Y | Z

  /**
   * A column label of a flattened frame. `Sample(X, j)` is the column "x_j"
   * (1-based, and likewise "y_j" and "z_j"); every other column, such as
   * "Time", "behaviour" or "confidence", is `Named`.
   */
  datatype Field = Sample(axis: Axis, pos: nat) | Named(name: string)

  /** A data frame as read from a file: string column labels and rows of cells. */
  datatype Table = Table(columns: seq<string>, rows: seq<seq<Cell>>)

  /** A data frame whose columns are flattened-window labels. */
  datatype Frame = Frame(columns: seq<Field>, rows: seq<seq<Cell>>) {
    /** Every row holds one cell per column, as in any data frame. */
    predicate WellFormed() {
      forall n | 0 <= n < |rows| :: |rows[n]| == |columns|
    }
  }

  /** One accelerometer sample after column selection: x, y, z and time. */
  datatype Reading = Reading(x: Cell, y: Cell, z: Cell, t: Cell)

  /** One flattened window: the per-axis samples in order and one timestamp. */
  datatype FlatRow = FlatRow(xs: seq<Cell>, ys: seq<Cell>, zs: seq<Cell>, time: Cell)

  /** The cell of `row` at column `i`, or a missing value past its end. */
  function CellAt(row: seq<Cell>, i: nat): Cell {
    if i < |row| then row[i] else None
  }

  /** Position of the first occurrence of `x` in `s` (pandas label lookup). */
  function IndexOf<T(==)>(s: seq<T>, x: T): (i: nat)
    requires x in s
    ensures i < |s| && s[i] == x
    ensures forall k | 0 <= k < i :: s[k] != x
  {
    if s[0] == x then 0 else 1 + IndexOf(s[1..], x)
  }

  /** The cell in row `n` under column label `f` (`df.loc[n, f]`). */
  function Lookup(df: Frame, n: nat, f: Field): Cell
    requires df.WellFormed() && n < |df.rows| && f in df.columns
  {
    df.rows[n][IndexOf(df.columns, f)]
  }
}
