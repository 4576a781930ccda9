/**
 * The chunked CSV flattener: the input is read in chunks of `chunkSize` rows,
 * each chunk's X, Y, Z and time columns are resolved case-insensitively, rows
 * with a missing value in any of them are dropped, and the remaining readings
 * are cut into windows of `window` samples stamped with their LAST sample's
 * time. Windows never span two chunks.
 */
module ChunkedFlatten {
  import opened Tables
  import opened Windowing
  import opened ColumnLookup

  datatype FlattenError =
    | WindowIsZero                                      // `chunk_size % window` divides by zero
    | ChunkSizeNotMultiple(chunkSize: int, window: int)
    | ChunkSizeNotPositive(chunkSize: int)              // the CSV reader refuses chunks below one row
    | ColumnMissing(error: ColumnError)
    | NegativeWindow(window: int)                       // a chunk cannot be reshaped to a negative width

  /** The default chunk size and window of `flatten_file`. */
  const DefaultChunkSize: int := 30000
  const DefaultWindow: int := 30

  /**
   * The default configuration passes every check `flatten_file` makes before
   * reading: a non-zero window, a chunk size that is a multiple of it, and at
   * least one row per chunk.
   */
  lemma DefaultConfiguration()
    ensures DefaultWindow > 0 && DefaultChunkSize % DefaultWindow == 0 && DefaultChunkSize >= 1
  {
  }

  /** The empty output's header is written for 30 samples, whatever the window. */
  const EmptyWidth: nat := 30

  /** Positions of the resolved X, Y, Z and time columns. */
  datatype Axes = Axes(x: nat, y: nat, z: nat, t: nat)

  /** Position of the column `find_col` resolves, or its error. */
  function ResolveIndex(columns: seq<string>, target: string, fallbacks: seq<string>): (r: Result<nat, ColumnError>)
    ensures r.Ok? <==> FindColumn(columns, target, fallbacks).Ok?
    ensures r.Ok? ==> r.value < |columns| && columns[r.value] == FindColumn(columns, target, fallbacks).value
    ensures r.Err? ==> r.error == FindColumn(columns, target, fallbacks).error
  {
    FindColumnInColumns(columns, target, fallbacks);
    match FindColumn(columns, target, fallbacks)
    case Ok(c) => Ok(IndexOf(columns, c))
    case Err(e) => Err(e)
  }

  /** The four columns, each with its own candidate names, resolved in order X, Y, Z, time. */
  function ResolveAxes(columns: seq<string>): (r: Result<Axes, ColumnError>)
    ensures r.Ok? <==>
      && FindColumn(columns, "X", ["x", "acc_x"]).Ok? && FindColumn(columns, "Y", ["y", "acc_y"]).Ok?
      && FindColumn(columns, "Z", ["z", "acc_z"]).Ok? && FindColumn(columns, "time", ["Time", "timestamp", "datetime"]).Ok?
    ensures r.Ok? ==>
      && r.value.x < |columns| && columns[r.value.x] == FindColumn(columns, "X", ["x", "acc_x"]).value
      && r.value.y < |columns| && columns[r.value.y] == FindColumn(columns, "Y", ["y", "acc_y"]).value
      && r.value.z < |columns| && columns[r.value.z] == FindColumn(columns, "Z", ["z", "acc_z"]).value
      && r.value.t < |columns| && columns[r.value.t] == FindColumn(columns, "time", ["Time", "timestamp", "datetime"]).value
    ensures r.Err? ==> r.error == MissingColumn(
      if FindColumn(columns, "X", ["x", "acc_x"]).Err? then "X"
      else if FindColumn(columns, "Y", ["y", "acc_y"]).Err? then "Y"
      else if FindColumn(columns, "Z", ["z", "acc_z"]).Err? then "Z"
      else "time", columns)
  {
    match ResolveIndex(columns, "X", ["x", "acc_x"])
    case Err(e) => Err(e)
    case Ok(x) =>
      match ResolveIndex(columns, "Y", ["y", "acc_y"])
      case Err(e) => Err(e)
      case Ok(y) =>
        match ResolveIndex(columns, "Z", ["z", "acc_z"])
        case Err(e) => Err(e)
        case Ok(z) =>
          match ResolveIndex(columns, "time", ["Time", "timestamp", "datetime"])
          case Err(e) => Err(e)
          case Ok(t) => Ok(Axes(x, y, z, t))
  }

  method ResolveColumns(columns: seq<string>) returns (r: Result<Axes, ColumnError>)
    ensures r == ResolveAxes(columns)
  {
    var x := FindCol(columns, "X", ["x", "acc_x"]);
    if x.Err? { return Err(x.error); }
    var y := FindCol(columns, "Y", ["y", "acc_y"]);
    if y.Err? { return Err(y.error); }
    var z := FindCol(columns, "Z", ["z", "acc_z"]);
    if z.Err? { return Err(z.error); }
    var t := FindCol(columns, "time", ["Time", "timestamp", "datetime"]);
    if t.Err? { return Err(t.error); }
    FindColumnInColumns(columns, "X", ["x", "acc_x"]);
    FindColumnInColumns(columns, "Y", ["y", "acc_y"]);
    FindColumnInColumns(columns, "Z", ["z", "acc_z"]);
    FindColumnInColumns(columns, "time", ["Time", "timestamp", "datetime"]);
    return Ok(Axes(IndexOf(columns, x.value), IndexOf(columns, y.value),
                   IndexOf(columns, z.value), IndexOf(columns, t.value)));
  }

  /**
   * The chunks the CSV reader yields: consecutive runs of `size` rows, the
   * last one possibly shorter; an input without rows still yields one empty chunk.
   */
  function Chunks(rows: seq<seq<Cell>>, size: nat): (cs: seq<seq<seq<Cell>>>)
    requires size > 0
    ensures |cs| >= 1 && |cs[0]| <= size
    ensures rows == [] ==> cs == [[]]
    decreases |rows|
  {
    if |rows| <= size then [rows] else [rows[..size]] + Chunks(rows[size..], size)
  }

  function ConcatChunks(chunks: seq<seq<seq<Cell>>>): seq<seq<Cell>> {
    if chunks == [] then [] else chunks[0] + ConcatChunks(chunks[1..])
  }

  /** The chunks partition the rows in order; all but the last hold exactly `size` rows. */
  lemma {:induction false} ChunksPartition(rows: seq<seq<Cell>>, size: nat)
    requires size > 0
    ensures |Chunks(rows, size)| >= 1
    ensures ConcatChunks(Chunks(rows, size)) == rows
    ensures forall k | 0 <= k < |Chunks(rows, size)| - 1 :: |Chunks(rows, size)[k]| == size
    ensures |Chunks(rows, size)[|Chunks(rows, size)| - 1]| <= size
    decreases |rows|
  {
    if |rows| > size {
      var rest := Chunks(rows[size..], size);
      ChunksPartition(rows[size..], size);
      assert Chunks(rows, size)[1..] == rest;
      assert rows[..size] + rows[size..] == rows;
    }
  }

  /** The selected columns of one row, in the order X, Y, Z, time. */
  function Select(row: seq<Cell>, ax: Axes): Reading {
    Reading(CellAt(row, ax.x), CellAt(row, ax.y), CellAt(row, ax.z), CellAt(row, ax.t))
  }

  predicate Complete(rd: Reading) {
    rd.x.Some? && rd.y.Some? && rd.z.Some? && rd.t.Some?
  }

  /** The selected columns of a chunk after dropping rows with a missing value. */
  function ValidReadings(chunk: seq<seq<Cell>>, ax: Axes): (valid: seq<Reading>)
    ensures |valid| <= |chunk|
    ensures forall i | 0 <= i < |valid| :: Complete(valid[i])
  {
    if chunk == [] then []
    else
      var rd := Select(chunk[0], ax);
      (if Complete(rd) then [rd] else []) + ValidReadings(chunk[1..], ax)
  }

  /** Dropping incomplete rows commutes with concatenation, so it keeps their order. */
  lemma {:induction false} ValidReadingsAppend(a: seq<seq<Cell>>, b: seq<seq<Cell>>, ax: Axes)
    ensures ValidReadings(a + b, ax) == ValidReadings(a, ax) + ValidReadings(b, ax)
  {
    if a == [] {
      assert a + b == b;
    } else {
      assert (a + b)[1..] == a[1..] + b;
      ValidReadingsAppend(a[1..], b, ax);
    }
  }

  /** A row is kept exactly when its four selected cells are all present. */
  lemma ValidReadingsOne(row: seq<Cell>, ax: Axes)
    ensures ValidReadings([row], ax) == if Complete(Select(row, ax)) then [Select(row, ax)] else []
  {
    assert [row][1..] == [];
  }

  /** The selected columns of every row, nothing dropped. */
  function SelectAll(rows: seq<seq<Cell>>, ax: Axes): seq<Reading> {
    seq(|rows|, i requires 0 <= i < |rows| => Select(rows[i], ax))
  }

  /** Where no row has a missing value, dropping nulls keeps every row. */
  lemma {:induction false} ValidReadingsNoNulls(rows: seq<seq<Cell>>, ax: Axes)
    requires forall i | 0 <= i < |rows| :: Complete(Select(rows[i], ax))
    ensures ValidReadings(rows, ax) == SelectAll(rows, ax)
  {
    if rows != [] {
      ValidReadingsNoNulls(rows[1..], ax);
    }
  }

  /** The rows one chunk contributes. */
  function ChunkRows(chunk: seq<seq<Cell>>, ax: Axes, w: nat): (rows: seq<FlatRow>)
    requires w > 0
    ensures |rows| == |ValidReadings(chunk, ax)| / w
    ensures |ValidReadings(chunk, ax)| < w ==> rows == []
  {
    WindowCount(ValidReadings(chunk, ax), w, LastSample);
    Windows(ValidReadings(chunk, ax), w, LastSample)
  }

  /** The rows of all chunks, chunk after chunk. */
  function AllRows(chunks: seq<seq<seq<Cell>>>, ax: Axes, w: nat): (rows: seq<FlatRow>)
    requires w > 0
    ensures |rows| == WindowTotal(chunks, ax, w)
  {
    if chunks == [] then [] else ChunkRows(chunks[0], ax, w) + AllRows(chunks[1..], ax, w)
  }

  /** Adding one chunk appends that chunk's rows. */
  lemma AllRowsStep(chunks: seq<seq<seq<Cell>>>, c: nat, ax: Axes, w: nat)
    requires w > 0 && c < |chunks|
    ensures AllRows(chunks[..c + 1], ax, w) == AllRows(chunks[..c], ax, w) + ChunkRows(chunks[c], ax, w)
  {
    AllRowsAppend(chunks[..c], [chunks[c]], ax, w);
    assert chunks[..c + 1] == chunks[..c] + [chunks[c]];
    assert [chunks[c]][1..] == [];
  }

  lemma {:induction false} AllRowsAppend(a: seq<seq<seq<Cell>>>, b: seq<seq<seq<Cell>>>, ax: Axes, w: nat)
    requires w > 0
    ensures AllRows(a + b, ax, w) == AllRows(a, ax, w) + AllRows(b, ax, w)
  {
    if a == [] {
      assert a + b == b;
    } else {
      assert (a + b)[1..] == a[1..] + b;
      AllRowsAppend(a[1..], b, ax, w);
    }
  }

  /** The total number of windows: the sum over chunks of `floor(valid / w)`. */
  function WindowTotal(chunks: seq<seq<seq<Cell>>>, ax: Axes, w: nat): nat
    requires w > 0
  {
    if chunks == [] then 0 else |ValidReadings(chunks[0], ax)| / w + WindowTotal(chunks[1..], ax, w)
  }

  /**
   * Output rows follow chunk order, then window order: window `i` of chunk `k`
   * sits right after the rows of the chunks before `k`, and its samples are the
   * chunk's complete readings `i*w .. i*w + w - 1`, stamped with the last.
   */
  lemma {:induction false} AllRowsAt(chunks: seq<seq<seq<Cell>>>, ax: Axes, w: nat, k: nat, i: nat)
    requires w > 0 && k < |chunks| && i < |ValidReadings(chunks[k], ax)| / w
    ensures |AllRows(chunks[..k], ax, w)| + i < |AllRows(chunks, ax, w)|
    ensures |ChunkRows(chunks[k], ax, w)| == |ValidReadings(chunks[k], ax)| / w
    ensures AllRows(chunks, ax, w)[|AllRows(chunks[..k], ax, w)| + i] == ChunkRows(chunks[k], ax, w)[i]
    ensures var valid := ValidReadings(chunks[k], ax);
      && i * w + w <= |valid|
      && AllRows(chunks, ax, w)[|AllRows(chunks[..k], ax, w)| + i] == MakeRow(valid[i * w .. i * w + w], LastSample)
      && AllRows(chunks, ax, w)[|AllRows(chunks[..k], ax, w)| + i].time == valid[i * w + w - 1].t
  {
    var before, here, after := chunks[..k], chunks[k], chunks[k + 1..];
    assert chunks == before + [here] + after;
    AllRowsAppend(before + [here], after, ax, w);
    AllRowsAppend(before, [here], ax, w);
    assert AllRows([here], ax, w) == ChunkRows(here, ax, w) by {
      assert [here][1..] == [];
    }
    WindowAt(ValidReadings(here, ax), w, LastSample, i);
  }

  /**
   * With a chunk size that is a multiple of the window and no missing values,
   * chunking loses nothing: the output is the windowing of the whole input.
   */
  lemma {:induction false} ChunkingWithoutNulls(rows: seq<seq<Cell>>, size: nat, ax: Axes, w: nat)
    requires w > 0 && size > 0 && size % w == 0
    requires forall i | 0 <= i < |rows| :: Complete(Select(rows[i], ax))
    ensures AllRows(Chunks(rows, size), ax, w) == Windows(SelectAll(rows, ax), w, LastSample)
    decreases |rows|
  {
    ValidReadingsNoNulls(rows, ax);
    if |rows| <= size {
      assert [rows][1..] == [];
    } else {
      var head, tail := rows[..size], rows[size..];
      assert Chunks(rows, size)[0] == head && Chunks(rows, size)[1..] == Chunks(tail, size);
      ChunkingWithoutNulls(tail, size, ax, w);
      ValidReadingsNoNulls(head, ax);
      ValidReadingsNoNulls(tail, ax);
      assert SelectAll(rows, ax) == SelectAll(head, ax) + SelectAll(tail, ax);
      WindowsAppend(SelectAll(head, ax), SelectAll(tail, ax), w, LastSample);
    }
  }

  /** A row whose samples and timestamp are all present. */
  predicate Present(row: FlatRow) {
    && row.time.Some?
    && (forall j | 0 <= j < |row.xs| :: row.xs[j].Some?)
    && (forall j | 0 <= j < |row.ys| :: row.ys[j].Some?)
    && (forall j | 0 <= j < |row.zs| :: row.zs[j].Some?)
  }

  lemma {:induction false} WindowsPresent(rs: seq<Reading>, w: nat)
    requires w > 0 && forall i | 0 <= i < |rs| :: Complete(rs[i])
    ensures forall n | 0 <= n < |Windows(rs, w, LastSample)| :: Present(Windows(rs, w, LastSample)[n])
    decreases |rs|
  {
    if |rs| >= w {
      WindowsPresent(rs[w..], w);
      assert Present(MakeRow(rs[..w], LastSample));
    }
  }

  /** Every sample and timestamp in the output is present: nulls were dropped first. */
  lemma {:induction false} AllRowsPresent(chunks: seq<seq<seq<Cell>>>, ax: Axes, w: nat)
    requires w > 0
    ensures forall n | 0 <= n < |AllRows(chunks, ax, w)| :: Present(AllRows(chunks, ax, w)[n])
  {
    if chunks != [] {
      WindowsPresent(ValidReadings(chunks[0], ax), w);
      AllRowsPresent(chunks[1..], ax, w);
    }
  }

  /** The frame written out: the fixed 30-sample header when no row exists. */
  function Output(rows: seq<FlatRow>, w: nat): (out: Frame)
    ensures out.WellFormed() && |out.rows| == |rows|
  {
    if rows == [] then Frame(Header(EmptyWidth, Blocked, "Time"), [])
    else ToFrame(rows, w, Interleaved, "Time")
  }

  /**
   * Without rows the header is x_1..x_30, y_1..y_30, z_1..z_30, Time (91
   * columns) whatever the window; with rows it has 3*w + 1 columns.
   */
  lemma OutputHeader(rows: seq<FlatRow>, w: nat, f: Field)
    ensures rows == [] ==> Output(rows, w).columns == AxisHeader(X, 30) + AxisHeader(Y, 30) + AxisHeader(Z, 30) + [Named("Time")]
    ensures rows == [] ==> |Output(rows, w).columns| == 91 && Output(rows, w).rows == []
    ensures rows != [] ==> |Output(rows, w).columns| == 3 * w + 1 && |Output(rows, w).rows| == |rows|
    ensures f in Output(rows, w).columns <==>
      f == Named("Time") || (f.Sample? && 1 <= f.pos <= (if rows == [] then EmptyWidth else w))
  {
    HeaderFields(if rows == [] then EmptyWidth else w, if rows == [] then Blocked else Interleaved, "Time", f);
  }

  /** One chunk's complete readings cut into rows, as the row-building loops do. */
  method FlattenChunk(valid: seq<Reading>, window: nat) returns (rows: seq<FlatRow>)
    requires window > 0
    ensures rows == Windows(valid, window, LastSample)
  {
    KeptRows(|valid|, window);
    var usable := (|valid| / window) * window;
    var kept := valid[..usable];
    var count := usable / window;
    ghost var spec := Windows(kept, window, LastSample);
    WindowCount(kept, window, LastSample);
    rows := [];
    for i := 0 to count
      invariant |rows| == i
      invariant forall k | 0 <= k < i :: rows[k] == spec[k]
    {
      WindowAt(kept, window, LastSample, i);
      var base := i * window;
      var xs, ys, zs := [], [], [];
      for j := 0 to window
        invariant |xs| == j && |ys| == j && |zs| == j
        invariant forall m | 0 <= m < j :: xs[m] == kept[base + m].x && ys[m] == kept[base + m].y && zs[m] == kept[base + m].z
      {
        xs := xs + [kept[base + j].x];
        ys := ys + [kept[base + j].y];
        zs := zs + [kept[base + j].z];
      }
      var row := FlatRow(xs, ys, zs, kept[base + window - 1].t);
      assert row.xs == spec[i].xs && row.ys == spec[i].ys && row.zs == spec[i].zs;
      rows := rows + [row];
    }
    TruncationKeepsWindows(valid, window, LastSample);
  }

  /**
   * The chunk loop of `flatten_file`: every chunk resolves the four columns
   * (so a missing column fails on the first chunk), drops incomplete rows and
   * contributes its windows; a chunk with fewer complete rows than the window
   * is skipped.
   */
  method FlattenChunks(columns: seq<string>, chunks: seq<seq<seq<Cell>>>, window: int)
    returns (r: Result<seq<FlatRow>, FlattenError>)
    requires |chunks| >= 1 && window != 0
    ensures ResolveAxes(columns).Err? ==> r == Err(ColumnMissing(ResolveAxes(columns).error))
    ensures ResolveAxes(columns).Ok? && window < 0 ==> r == Err(NegativeWindow(window))
    ensures ResolveAxes(columns).Ok? && window > 0 ==> r == Ok(AllRows(chunks, ResolveAxes(columns).value, window))
  {
    var flattened: seq<FlatRow> := [];
    for c := 0 to |chunks|
      invariant c == 0 ==> flattened == []
      invariant c > 0 ==> ResolveAxes(columns).Ok? && window > 0
      invariant c > 0 ==> flattened == AllRows(chunks[..c], ResolveAxes(columns).value, window)
    {
      var resolved := ResolveColumns(columns);
      if resolved.Err? {
        return Err(ColumnMissing(resolved.error));
      }
      var ax := resolved.value;
      var valid := ValidReadings(chunks[c], ax);
      if window > 0 {
        AllRowsStep(chunks, c, ax, window);
      }
      if |valid| < window {
        assert ChunkRows(chunks[c], ax, window) == [];
        continue;
      }
      if window < 0 {
        return Err(NegativeWindow(window));
      }
      var rows := FlattenChunk(valid, window);
      assert rows == ChunkRows(chunks[c], ax, window);
      flattened := flattened + rows;
    }
    assert chunks[..|chunks|] == chunks;
    return Ok(flattened);
  }

  /**
   * `flatten_file`: the window and chunk size are checked before any chunk
   * is read; then the chunks are flattened and the result written with its
   * header. (A remainder of zero is the same test under Python's floored `%`
   * and Dafny's Euclidean `%`.)
   */
  method FlattenFile(input: Table, chunkSize: int, window: int) returns (r: Result<Frame, FlattenError>)
    ensures window == 0 ==> r == Err(WindowIsZero)
    ensures window != 0 && chunkSize % window != 0 ==> r == Err(ChunkSizeNotMultiple(chunkSize, window))
    ensures window != 0 && chunkSize % window == 0 && chunkSize < 1 ==> r == Err(ChunkSizeNotPositive(chunkSize))
    ensures window != 0 && chunkSize % window == 0 && chunkSize >= 1 ==>
      && (ResolveAxes(input.columns).Err? ==> r == Err(ColumnMissing(ResolveAxes(input.columns).error)))
      && (ResolveAxes(input.columns).Ok? && window < 0 ==> r == Err(NegativeWindow(window)))
      && (ResolveAxes(input.columns).Ok? && window > 0 ==>
            r == Ok(Output(AllRows(Chunks(input.rows, chunkSize), ResolveAxes(input.columns).value, window), window)))
  {
    if window == 0 {
      return Err(WindowIsZero);
    }
    if chunkSize % window != 0 {
      return Err(ChunkSizeNotMultiple(chunkSize, window));
    }
    if chunkSize < 1 {
      return Err(ChunkSizeNotPositive(chunkSize));
    }
    var chunks := Chunks(input.rows, chunkSize);
    ChunksPartition(input.rows, chunkSize);
    var flattened := FlattenChunks(input.columns, chunks, window);
    if flattened.Err? {
      return Err(flattened.error);
    }
    if flattened.value == [] {
      return Ok(Frame(Header(EmptyWidth, Blocked, "Time"), []));
    }
    return Ok(ToFrame(flattened.value, window, Interleaved, "Time"));
  }
}
