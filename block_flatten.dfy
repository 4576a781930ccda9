/**
 * The in-memory flattener: exact-case X, Y, Z and time columns are selected
 * (a lower-case time column is renamed when the exact one is absent), the
 * rows are truncated to a multiple of `seqLen`, and every block of `seqLen`
 * rows becomes one row stamped with its FIRST sample's time. Missing values
 * are kept.
 */
module BlockFlatten {
  import opened Tables
  import opened Windowing
  import opened ColumnLookup

  datatype BlockError =
    | DivisionByZero               // `len(d) // seq_len` with seq_len 0
    | KeyMissing(column: string)   // a block lacks the X, Y, Z or time column

  /** The default block length of `flatten_xyz`. */
  const DefaultSeqLen: int := 30

  /** The candidate columns, in selection order. */
  function Wanted(timeCol: string): seq<string> {
    ["X", "Y", "Z", timeCol, Lower(timeCol)]
  }

  /** The names of `names` that are columns, in the order of `names`. */
  function Keep(names: seq<string>, columns: seq<string>): (kept: seq<string>)
    ensures forall i | 0 <= i < |kept| :: kept[i] in columns && kept[i] in names
    ensures forall c | c in names && c in columns :: c in kept
  {
    if names == [] then []
    else (if names[0] in columns then [names[0]] else []) + Keep(names[1..], columns)
  }

  function Rename(names: seq<string>, from: string, to: string): seq<string> {
    seq(|names|, i requires 0 <= i < |names| => if names[i] == from then to else names[i])
  }

  /**
   * The frame `d`: the wanted columns that exist, the lower-case time column
   * renamed to `timeCol` when `timeCol` itself is absent; every row is kept.
   */
  function Narrow(df: Table, timeCol: string): (d: Table)
    ensures |d.rows| == |df.rows|
  {
    var kept := Keep(Wanted(timeCol), df.columns);
    var cols := if timeCol !in kept && Lower(timeCol) in kept then Rename(kept, Lower(timeCol), timeCol) else kept;
    Table(cols, seq(|df.rows|, n requires 0 <= n < |df.rows| =>
                      seq(|kept|, i requires 0 <= i < |kept| => CellAt(df.rows[n], IndexOf(df.columns, kept[i])))))
  }

  /** The cell of row `n` under label `name` (`d[name].values[n]`). */
  function Cell(t: Table, n: nat, name: string): Cell
    requires n < |t.rows| && name in t.columns
  {
    CellAt(t.rows[n], IndexOf(t.columns, name))
  }

  /** The first label a block lookup misses, in the order X, Y, Z, time. */
  function MissingKey(columns: seq<string>, timeCol: string): (r: Option<string>)
    ensures r.None? <==> "X" in columns && "Y" in columns && "Z" in columns && timeCol in columns
    ensures r.Some? ==> r.value !in columns && r.value in ["X", "Y", "Z", timeCol]
    ensures r.Some? && r.value != "X" ==> "X" in columns
    ensures r.Some? && r.value != "X" && r.value != "Y" ==> "Y" in columns
  {
    if "X" !in columns then Some("X")
    else if "Y" !in columns then Some("Y")
    else if "Z" !in columns then Some("Z")
    else if timeCol !in columns then Some(timeCol)
    else None
  }

  /** Every row of `t` as a reading of its X, Y, Z and time columns. */
  function Readings(t: Table, timeCol: string): (rs: seq<Reading>)
    requires MissingKey(t.columns, timeCol).None?
    ensures |rs| == |t.rows|
  {
    seq(|t.rows|, n requires 0 <= n < |t.rows| =>
          Reading(Cell(t, n, "X"), Cell(t, n, "Y"), Cell(t, n, "Z"), Cell(t, n, timeCol)))
  }

  /** The loop stops after the last whole block. */
  lemma BlocksDone(k: nat, q: nat, s: nat)
    requires s > 0 && k <= q && k * s >= q * s
    ensures k == q
  {
    if k < q {
      WindowEnd(k, q, s);
    }
  }

  /**
   * `flatten_xyz`: select and rename the columns, then flatten the blocks.
   * A negative `seqLen` gives an empty step range, hence an empty frame.
   */
  method FlattenXyz(df: Table, seqLen: int, timeCol: string) returns (r: Result<Frame, BlockError>)
    ensures seqLen == 0 ==> r == Err(DivisionByZero)
    ensures seqLen < 0 || 0 <= |df.rows| < seqLen ==> r == Ok(Frame([], []))
    ensures 0 < seqLen <= |df.rows| && MissingKey(Narrow(df, timeCol).columns, timeCol).Some? ==>
      r == Err(KeyMissing(MissingKey(Narrow(df, timeCol).columns, timeCol).value))
    ensures 0 < seqLen <= |df.rows| && MissingKey(Narrow(df, timeCol).columns, timeCol).None? ==>
      r == Ok(ToFrame(Windows(Readings(Narrow(df, timeCol), timeCol), seqLen, FirstSample), seqLen, Blocked, timeCol))
  {
    var d := Narrow(df, timeCol);
    if seqLen == 0 {
      return Err(DivisionByZero);
    }
    if seqLen < 0 {
      return Ok(Frame([], []));
    }
    r := FlattenBlocks(d, seqLen, timeCol);
  }

  /**
   * The block loop of `flatten_xyz`: truncate to `floor(len / seqLen) * seqLen`
   * rows and flatten each block of `seqLen` rows. The key lookups happen
   * inside the loop, so a frame too short for one block yields an empty frame
   * even when columns are missing.
   */
  method FlattenBlocks(d: Table, seqLen: nat, timeCol: string) returns (r: Result<Frame, BlockError>)
    requires seqLen > 0
    ensures |d.rows| < seqLen ==> r == Ok(Frame([], []))
    ensures seqLen <= |d.rows| && MissingKey(d.columns, timeCol).Some? ==>
      r == Err(KeyMissing(MissingKey(d.columns, timeCol).value))
    ensures seqLen <= |d.rows| && MissingKey(d.columns, timeCol).None? ==>
      r == Ok(ToFrame(Windows(Readings(d, timeCol), seqLen, FirstSample), seqLen, Blocked, timeCol))
  {
    var count := |d.rows| / seqLen;
    var rowsToKeep := count * seqLen;
    KeptRows(|d.rows|, seqLen);
    if |d.rows| < seqLen {
      DivSmall(|d.rows|, seqLen);
    }
    var outRows: seq<FlatRow> := [];
    var i := 0;
    ghost var k := 0;
    while i < rowsToKeep
      invariant i == k * seqLen
      invariant k == 0 ==> outRows == []
      invariant k > 0 ==> MissingKey(d.columns, timeCol).None?
      invariant k > 0 ==> |Windows(Readings(d, timeCol), seqLen, FirstSample)| == count
      invariant k > 0 ==> k <= count && outRows == Windows(Readings(d, timeCol), seqLen, FirstSample)[..k]
      decreases rowsToKeep - i
    {
      var missing := MissingKey(d.columns, timeCol);
      if missing.Some? {
        return Err(KeyMissing(missing.value));
      }
      BlockStep(d, timeCol, seqLen, count, k, i);
      ghost var spec := Windows(Readings(d, timeCol), seqLen, FirstSample);
      assert spec[..k + 1] == spec[..k] + [spec[k]];
      outRows := outRows + [MakeRow(Readings(Table(d.columns, d.rows[i .. i + seqLen]), timeCol), FirstSample)];
      i := i + seqLen;
      k := k + 1;
    }
    if outRows == [] {
      if seqLen <= |d.rows| {
        DivStep(|d.rows|, seqLen);
        MulAtLeast(count, seqLen);
        assert false;
      }
      return Ok(Frame([], []));
    }
    BlocksDone(k, count, seqLen);
    WindowCount(Readings(d, timeCol), seqLen, FirstSample);
    ghost var spec := Windows(Readings(d, timeCol), seqLen, FirstSample);
    assert spec[..k] == spec;
    return Ok(ToFrame(outRows, seqLen, Blocked, timeCol));
  }

  /**
   * One pass of the block loop: the block starting at row `i = k*seqLen`
   * lies inside the frame, and flattening its readings gives window `k`.
   */
  lemma BlockStep(d: Table, timeCol: string, seqLen: nat, count: nat, k: nat, i: nat)
    requires seqLen > 0 && MissingKey(d.columns, timeCol).None? && count == |d.rows| / seqLen
    requires i == k * seqLen && i < count * seqLen
    ensures k < count && i + seqLen <= |d.rows| && i + seqLen == (k + 1) * seqLen
    ensures |Windows(Readings(d, timeCol), seqLen, FirstSample)| == count
    ensures Windows(Readings(d, timeCol), seqLen, FirstSample)[k] ==
      MakeRow(Readings(Table(d.columns, d.rows[i .. i + seqLen]), timeCol), FirstSample)
  {
    MulBelow(k, count, seqLen);
    Distrib(k, 0, seqLen);
    BlockReadings(d, timeCol, i, seqLen);
    WindowSlice(Readings(d, timeCol), seqLen, FirstSample, k);
  }

  /** The readings of a block are the block of the readings. */
  lemma BlockReadings(d: Table, timeCol: string, i: nat, s: nat)
    requires MissingKey(d.columns, timeCol).None? && i + s <= |d.rows|
    ensures Readings(Table(d.columns, d.rows[i .. i + s]), timeCol) == Readings(d, timeCol)[i .. i + s]
  {
  }

  // ---- what the selection keeps --------------------------------------------

  lemma LowerHasNoCapital(s: string)
    ensures Lower(s) != "X" && Lower(s) != "Y" && Lower(s) != "Z"
  {
    if |s| == 1 {
      assert Lower(s)[0] == LowerChar(s[0]);
    }
  }

  /** Renaming labels that stand in a one-to-one relation keeps the first position. */
  lemma {:induction false} IndexOfRelabelled(a: seq<string>, b: seq<string>, x: string, y: string)
    requires |a| == |b| && x in a
    requires forall i | 0 <= i < |a| :: a[i] == x <==> b[i] == y
    ensures y in b && IndexOf(b, y) == IndexOf(a, x)
  {
    if a[0] != x {
      IndexOfRelabelled(a[1..], b[1..], x, y);
    }
  }

  /** The X, Y and Z columns are taken with their exact names only. */
  lemma NarrowAxisColumn(df: Table, timeCol: string, name: string)
    requires name in ["X", "Y", "Z"] && timeCol !in ["X", "Y", "Z"]
    ensures name in Narrow(df, timeCol).columns <==> name in df.columns
  {
    var kept := Keep(Wanted(timeCol), df.columns);
    var cols := Narrow(df, timeCol).columns;
    LowerHasNoCapital(timeCol);
    assert name in Wanted(timeCol);
    assert forall i | 0 <= i < |kept| :: cols[i] == name <==> kept[i] == name;
    if name in df.columns {
      var i :| 0 <= i < |kept| && kept[i] == name;
      assert cols[i] == name;
    }
  }

  /** An X, Y or Z column of `d` holds the input's cells of that column. */
  lemma NarrowAxis(df: Table, timeCol: string, name: string, n: nat)
    requires name in ["X", "Y", "Z"] && timeCol !in ["X", "Y", "Z"] && n < |df.rows|
    requires name in df.columns
    ensures name in Narrow(df, timeCol).columns
    ensures Cell(Narrow(df, timeCol), n, name) == Cell(Table(df.columns, df.rows), n, name)
  {
    var d := Narrow(df, timeCol);
    var kept := Keep(Wanted(timeCol), df.columns);
    LowerHasNoCapital(timeCol);
    assert name in Wanted(timeCol);
    IndexOfRelabelled(kept, d.columns, name, name);
  }

  /** The input column that supplies the time: `timeCol` itself, else its lower-case form. */
  function TimeSource(columns: seq<string>, timeCol: string): Option<string> {
    if timeCol in columns then Some(timeCol)
    else if Lower(timeCol) in columns then Some(Lower(timeCol))
    else None
  }

  /** `d` has a `timeCol` column exactly when the input has `timeCol` or its lower-case form. */
  lemma NarrowTimeColumn(df: Table, timeCol: string)
    ensures timeCol in Narrow(df, timeCol).columns <==> TimeSource(df.columns, timeCol).Some?
  {
    var kept := Keep(Wanted(timeCol), df.columns);
    assert timeCol in Wanted(timeCol) && Lower(timeCol) in Wanted(timeCol);
    if timeCol !in kept && Lower(timeCol) in kept {
      var i :| 0 <= i < |kept| && kept[i] == Lower(timeCol);
      assert Narrow(df, timeCol).columns[i] == timeCol;
    }
  }

  /** The `timeCol` column of `d` holds the time source's cells, renamed when needed. */
  lemma NarrowTime(df: Table, timeCol: string, n: nat)
    requires n < |df.rows| && TimeSource(df.columns, timeCol).Some?
    ensures timeCol in Narrow(df, timeCol).columns
    ensures Cell(Narrow(df, timeCol), n, timeCol) == Cell(Table(df.columns, df.rows), n, TimeSource(df.columns, timeCol).value)
  {
    var d := Narrow(df, timeCol);
    var kept := Keep(Wanted(timeCol), df.columns);
    var low := Lower(timeCol);
    assert timeCol in Wanted(timeCol) && low in Wanted(timeCol);
    if timeCol in df.columns {
      IndexOfRelabelled(kept, d.columns, timeCol, timeCol);
    } else {
      assert timeCol !in kept;
      IndexOfRelabelled(kept, d.columns, low, timeCol);
    }
  }

  function AxisLabel(a: Axis): string {
    match a
    case X => "X"
    case Y => "Y"
    case Z => "Z"
  }

  /** The flattened frame of a table whose X, Y, Z and time columns were found. */
  function BlockFrame(df: Table, seqLen: nat, timeCol: string): Frame
    requires 0 < seqLen && MissingKey(Narrow(df, timeCol).columns, timeCol).None?
  {
    ToFrame(Windows(Readings(Narrow(df, timeCol), timeCol), seqLen, FirstSample), seqLen, Blocked, timeCol)
  }

  /** A successful flattening has `floor(len / seqLen)` rows and finds every input column it reads. */
  lemma FlattenXyzShape(df: Table, seqLen: nat, timeCol: string)
    requires 0 < seqLen && timeCol !in ["X", "Y", "Z"]
    requires MissingKey(Narrow(df, timeCol).columns, timeCol).None?
    ensures |BlockFrame(df, seqLen, timeCol).rows| == |df.rows| / seqLen
    ensures "X" in df.columns && "Y" in df.columns && "Z" in df.columns
    ensures TimeSource(df.columns, timeCol).Some?
  {
    WindowCount(Readings(Narrow(df, timeCol), timeCol), seqLen, FirstSample);
    NarrowAxisColumn(df, timeCol, "X");
    NarrowAxisColumn(df, timeCol, "Y");
    NarrowAxisColumn(df, timeCol, "Z");
    NarrowTimeColumn(df, timeCol);
  }

  /**
   * Output row `k`, column a_{j+1}, of a successful flattening is input row
   * `k*seqLen + j` of the exact-case axis column.
   */
  lemma FlattenXyzSample(df: Table, seqLen: nat, timeCol: string, k: nat, j: nat, a: Axis)
    requires 0 < seqLen && timeCol !in ["X", "Y", "Z"]
    requires MissingKey(Narrow(df, timeCol).columns, timeCol).None?
    requires k < |df.rows| / seqLen && j < seqLen
    ensures 0 <= k * seqLen + j < |df.rows|
    ensures AxisLabel(a) in df.columns && Sample(a, j + 1) in BlockFrame(df, seqLen, timeCol).columns
    ensures k < |BlockFrame(df, seqLen, timeCol).rows|
    ensures Lookup(BlockFrame(df, seqLen, timeCol), k, Sample(a, j + 1)) == Cell(Table(df.columns, df.rows), k * seqLen + j, AxisLabel(a))
  {
    var rs := Readings(Narrow(df, timeCol), timeCol);
    MulNonNegative(k, seqLen);
    FrameOfWindows(rs, seqLen, FirstSample, Blocked, timeCol, k, j, a);
    NarrowAxisColumn(df, timeCol, AxisLabel(a));
    NarrowAxis(df, timeCol, AxisLabel(a), k * seqLen + j);
  }

  /**
   * The time of output row `k` of a successful flattening is input row
   * `k*seqLen` (the block's first sample) of the time source column.
   */
  lemma FlattenXyzTime(df: Table, seqLen: nat, timeCol: string, k: nat)
    requires 0 < seqLen
    requires MissingKey(Narrow(df, timeCol).columns, timeCol).None?
    requires k < |df.rows| / seqLen
    ensures 0 <= k * seqLen < |df.rows|
    ensures TimeSource(df.columns, timeCol).Some? && Named(timeCol) in BlockFrame(df, seqLen, timeCol).columns
    ensures k < |BlockFrame(df, seqLen, timeCol).rows|
    ensures Lookup(BlockFrame(df, seqLen, timeCol), k, Named(timeCol))
      == Cell(Table(df.columns, df.rows), k * seqLen, TimeSource(df.columns, timeCol).value)
  {
    var rs := Readings(Narrow(df, timeCol), timeCol);
    MulNonNegative(k, seqLen);
    FrameTimeOfWindows(rs, seqLen, FirstSample, Blocked, timeCol, k);
    NarrowTimeColumn(df, timeCol);
    NarrowTime(df, timeCol, k * seqLen);
  }
}
