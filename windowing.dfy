/**
 * The window arithmetic shared by both windowers: cutting a run of readings
 * into consecutive non-overlapping windows of `w` samples, flattening one
 * window into a row, and laying flattened rows out as a frame.
 */
module Windowing {
  import opened Tables

  /** Which sample of a window supplies the row's timestamp. */
  datatype Stamp = FirstSample | LastSample

  /**
   * Column order of a flattened frame: `Interleaved` is x_1, y_1, z_1, x_2, ...
   * (a row dictionary filled one sample at a time), `Blocked` is
   * x_1..x_w, y_1..y_w, z_1..z_w (one dictionary per axis). Both end in the
   * time column.
   */
  datatype Layout = Interleaved | Blocked

  function AxisCell(r: Reading, a: Axis): Cell {
    match a
    case X => r.x
    case Y => r.y
    case Z => r.z
  }

  function AxisCells(row: FlatRow, a: Axis): seq<Cell> {
    match a
    case X => row.xs
    case Y => row.ys
    case Z => row.zs
  }

  /** The channel `a` of every reading, in order. */
  function AxisSeq(rs: seq<Reading>, a: Axis): seq<Cell> {
    seq(|rs|, i requires 0 <= i < |rs| => AxisCell(rs[i], a))
  }

  /**
   * One window flattened into a row: sample `j` of each axis is that axis of
   * reading `j`, and the row is stamped with the first or the last reading's time.
   */
  function MakeRow(block: seq<Reading>, stamp: Stamp): (row: FlatRow)
    requires |block| > 0
  {
    FlatRow(AxisSeq(block, X), AxisSeq(block, Y), AxisSeq(block, Z),
            if stamp == LastSample then block[|block| - 1].t else block[0].t)
  }

  /** Consecutive windows of `w` readings; a tail shorter than `w` is dropped. */
  function Windows(rs: seq<Reading>, w: nat, stamp: Stamp): (ws: seq<FlatRow>)
    requires w > 0
    decreases |rs|
  {
    if |rs| < w then [] else [MakeRow(rs[..w], stamp)] + Windows(rs[w..], w, stamp)
  }

  /** The channel `a` of consecutive rows, concatenated. */
  function Joined(rows: seq<FlatRow>, a: Axis): seq<Cell> {
    if rows == [] then [] else AxisCells(rows[0], a) + Joined(rows[1..], a)
  }

  // ---- division facts -------------------------------------------------------

  lemma DivStep(n: int, w: int)
    requires n >= w > 0
    ensures n / w == (n - w) / w + 1
    ensures n % w == (n - w) % w
  {
    var q, r := (n - w) / w, (n - w) % w;
    assert n == (q + 1) * w + r;
    DivUnique(n, w, q + 1, r);
  }

  lemma DivUnique(n: int, w: int, q: int, r: int)
    requires w > 0 && 0 <= r < w && n == q * w + r
    ensures n / w == q && n % w == r
  {
    var q', r' := n / w, n % w;
    assert n == q' * w + r';
    Distrib(q, q', w);
    if q > q' {
      MulAtLeast(q - q', w);
    } else if q < q' {
      Distrib(q', q, w);
      MulAtLeast(q' - q, w);
    }
  }

  lemma Distrib(a: int, b: int, w: int)
    ensures (a - b) * w == a * w - b * w
    ensures (a + 1) * w == a * w + w
  {
  }

  lemma MulNonNegative(a: int, w: int)
    requires a >= 0 && w >= 0
    ensures a * w >= 0
  {
  }

  lemma {:induction false} MulAtLeast(d: int, w: int)
    requires d >= 1 && w >= 0
    ensures d * w >= w
    decreases d
  {
    if d > 1 {
      MulAtLeast(d - 1, w);
      Distrib(d, 1, w);
    }
  }

  lemma MulBelow(k: nat, c: nat, w: nat)
    requires w > 0 && k * w < c * w
    ensures k < c
  {
    if k >= c {
      MulAtLeast(k - c + 1, w);
      Distrib(k, c, w);
    }
  }

  lemma DivSmall(n: int, w: int)
    requires 0 <= n < w
    ensures n / w == 0 && n % w == n
  {
    DivUnique(n, w, 0, n);
  }

  /** The rows kept before windowing: the largest multiple of `w` not above `n`. */
  lemma {:induction false} KeptRows(n: nat, w: nat)
    requires w > 0
    ensures 0 <= (n / w) * w <= n < (n / w) * w + w
    ensures ((n / w) * w) / w == n / w
  {
    assert n == (n / w) * w + n % w;
    DivUnique((n / w) * w, w, n / w, 0);
  }

  /** Window `i` ends inside the kept prefix. */
  lemma WindowEnd(i: nat, q: nat, w: nat)
    requires i < q
    ensures i * w + w <= q * w
  {
    Distrib(q, i, w);
    MulAtLeast(q - i, w);
  }

  // ---- windows ----------------------------------------------------------------

  /** There are exactly `floor(n / w)` windows. */
  lemma {:induction false} WindowCount(rs: seq<Reading>, w: nat, stamp: Stamp)
    requires w > 0
    ensures |Windows(rs, w, stamp)| == |rs| / w
    decreases |rs|
  {
    if |rs| < w {
      DivSmall(|rs|, w);
    } else {
      WindowCount(rs[w..], w, stamp);
      DivStep(|rs|, w);
    }
  }

  /** The window that starts at reading `Offset(i, w)` is window `i`. */
  lemma {:induction false} WindowFrom(rs: seq<Reading>, w: nat, stamp: Stamp, i: nat)
    requires w > 0 && Offset(i, w) + w <= |rs|
    ensures i < |Windows(rs, w, stamp)|
    ensures Windows(rs, w, stamp)[i] == MakeRow(rs[Offset(i, w) .. Offset(i, w) + w], stamp)
    decreases i
  {
    if i > 0 {
      var rest := rs[w..];
      WindowFrom(rest, w, stamp, i - 1);
      assert rest[Offset(i - 1, w) .. Offset(i, w)] == rs[Offset(i, w) .. Offset(i, w) + w];
    }
  }

  /** The start of window `i`, counted window by window. */
  function Offset(i: nat, w: nat): nat {
    if i == 0 then 0 else Offset(i - 1, w) + w
  }

  lemma {:induction false} OffsetProduct(i: nat, w: nat)
    ensures Offset(i, w) == i * w
  {
    if i > 0 {
      OffsetProduct(i - 1, w);
      Distrib(i - 1, 0, w);
    }
  }

  /** Window `i` is made of readings `i*w .. i*w + w - 1`. */
  lemma WindowSlice(rs: seq<Reading>, w: nat, stamp: Stamp, i: nat)
    requires w > 0 && i < |rs| / w
    ensures 0 <= i * w && i * w + w <= |rs|
    ensures |Windows(rs, w, stamp)| == |rs| / w
    ensures Windows(rs, w, stamp)[i] == MakeRow(rs[i * w .. i * w + w], stamp)
  {
    WindowCount(rs, w, stamp);
    KeptRows(|rs|, w);
    WindowEnd(i, |rs| / w, w);
    MulNonNegative(i, w);
    OffsetProduct(i, w);
    WindowFrom(rs, w, stamp, i);
  }

  /**
   * Window `i` is readings `i*w .. i*w + w - 1`: its `j`-th sample on every
   * axis is reading `i*w + j`, and its time is that of reading `i*w + w - 1`
   * (LastSample) or `i*w` (FirstSample).
   */
  lemma WindowAt(rs: seq<Reading>, w: nat, stamp: Stamp, i: nat)
    requires w > 0 && i < |rs| / w
    ensures 0 <= i * w && i * w + w <= |rs|
    ensures |Windows(rs, w, stamp)| == |rs| / w
    ensures Windows(rs, w, stamp)[i] == MakeRow(rs[i * w .. i * w + w], stamp)
    ensures forall j | 0 <= j < w ::
      && Windows(rs, w, stamp)[i].xs[j] == rs[i * w + j].x
      && Windows(rs, w, stamp)[i].ys[j] == rs[i * w + j].y
      && Windows(rs, w, stamp)[i].zs[j] == rs[i * w + j].z
    ensures Windows(rs, w, stamp)[i].time ==
      if stamp == LastSample then rs[i * w + w - 1].t else rs[i * w].t
  {
    WindowSlice(rs, w, stamp, i);
  }

  lemma AxisSeqAppend(a: seq<Reading>, b: seq<Reading>, x: Axis)
    ensures AxisSeq(a + b, x) == AxisSeq(a, x) + AxisSeq(b, x)
  {
  }

  /**
   * No overlap and no gap: the rows' samples, concatenated in order, are
   * exactly the kept readings `0 .. floor(n / w) * w - 1`.
   */
  lemma {:induction false} NoOverlapNoGap(rs: seq<Reading>, w: nat, stamp: Stamp, a: Axis)
    requires w > 0
    ensures (|rs| / w) * w <= |rs|
    ensures Joined(Windows(rs, w, stamp), a) == AxisSeq(rs[..(|rs| / w) * w], a)
  {
    KeptRows(|rs|, w);
    WindowCount(rs, w, stamp);
    JoinedPrefix(rs, w, stamp, a);
  }

  lemma {:induction false} JoinedPrefix(rs: seq<Reading>, w: nat, stamp: Stamp, a: Axis)
    requires w > 0
    ensures |Windows(rs, w, stamp)| * w <= |rs|
    ensures Joined(Windows(rs, w, stamp), a) == AxisSeq(rs[..|Windows(rs, w, stamp)| * w], a)
    decreases |rs|
  {
    if |rs| >= w {
      var tail := rs[w..];
      JoinedPrefix(tail, w, stamp, a);
      var rows := Windows(rs, w, stamp);
      var m := |Windows(tail, w, stamp)| * w;
      assert |rows| * w == w + m by {
        Distrib(|Windows(tail, w, stamp)|, 0, w);
      }
      calc {
        Joined(rows, a);
        { assert rows[0] == MakeRow(rs[..w], stamp) && rows[1..] == Windows(tail, w, stamp); }
        AxisSeq(rs[..w], a) + Joined(Windows(tail, w, stamp), a);
        AxisSeq(rs[..w], a) + AxisSeq(tail[..m], a);
        { AxisSeqAppend(rs[..w], tail[..m], a); }
        AxisSeq(rs[..w] + tail[..m], a);
        { assert rs[..w] + tail[..m] == rs[..w + m]; }
        AxisSeq(rs[..|rows| * w], a);
      }
    }
  }

  /** Truncating to whole windows first does not change the windows. */
  lemma {:induction false} TruncationKeepsWindows(rs: seq<Reading>, w: nat, stamp: Stamp)
    requires w > 0
    ensures (|rs| / w) * w <= |rs|
    ensures Windows(rs[..(|rs| / w) * w], w, stamp) == Windows(rs, w, stamp)
  {
    KeptRows(|rs|, w);
    var kept := rs[..(|rs| / w) * w];
    WindowCount(rs, w, stamp);
    WindowCount(kept, w, stamp);
    forall i | 0 <= i < |rs| / w
      ensures Windows(kept, w, stamp)[i] == Windows(rs, w, stamp)[i]
    {
      WindowSlice(rs, w, stamp, i);
      WindowSlice(kept, w, stamp, i);
      assert kept[i * w .. i * w + w] == rs[i * w .. i * w + w];
    }
  }

  /** Readings whose count is a multiple of `w` window independently of what follows. */
  lemma {:induction false} WindowsAppend(a: seq<Reading>, b: seq<Reading>, w: nat, stamp: Stamp)
    requires w > 0 && |a| % w == 0
    ensures Windows(a + b, w, stamp) == Windows(a, w, stamp) + Windows(b, w, stamp)
    decreases |a|
  {
    if |a| == 0 {
      assert a + b == b;
    } else {
      if |a| < w {
        DivSmall(|a|, w);
        assert false;
      }
      DivStep(|a|, w);
      assert (a + b)[..w] == a[..w];
      assert (a + b)[w..] == a[w..] + b;
      WindowsAppend(a[w..], b, w, stamp);
    }
  }

  // ---- frame layout -------------------------------------------------------------

  function AxisNo(a: Axis): nat {
    match a
    case X => 0
    case Y => 1
    case Z => 2
  }

  /** Labels `a_1 .. a_w` of one axis. */
  function AxisHeader(a: Axis, w: nat): seq<Field> {
    seq(w, i requires 0 <= i < w => Sample(a, i + 1))
  }

  /** The header of a frame of `w`-sample rows whose time column is `time`. */
  function Header(w: nat, layout: Layout, time: string): seq<Field> {
    match layout
    case Blocked => AxisHeader(X, w) + AxisHeader(Y, w) + AxisHeader(Z, w) + [Named(time)]
    case Interleaved => Interleave(AxisHeader(X, w), AxisHeader(Y, w), AxisHeader(Z, w)) + [Named(time)]
  }

  /** Three label runs taken one from each in turn: x_1, y_1, z_1, x_2, y_2, z_2, ... */
  function Interleave(xs: seq<Field>, ys: seq<Field>, zs: seq<Field>): (h: seq<Field>)
    requires |xs| == |ys| == |zs|
    ensures |h| == 3 * |xs|
    decreases |xs|
  {
    if xs == [] then [] else [xs[0], ys[0], zs[0]] + Interleave(xs[1..], ys[1..], zs[1..])
  }

  /** Triple `k` of an interleaving is element `k` of each run. */
  lemma {:induction false} InterleaveAt(xs: seq<Field>, ys: seq<Field>, zs: seq<Field>, k: nat)
    requires |xs| == |ys| == |zs| && k < |xs|
    ensures Interleave(xs, ys, zs)[3 * k] == xs[k]
    ensures Interleave(xs, ys, zs)[3 * k + 1] == ys[k]
    ensures Interleave(xs, ys, zs)[3 * k + 2] == zs[k]
    decreases k
  {
    if k > 0 {
      InterleaveAt(xs[1..], ys[1..], zs[1..], k - 1);
    }
  }

  /** Every element of an interleaving comes from one of the runs. */
  lemma {:induction false} InterleaveFrom(xs: seq<Field>, ys: seq<Field>, zs: seq<Field>, i: nat)
    requires |xs| == |ys| == |zs| && i < 3 * |xs|
    ensures Interleave(xs, ys, zs)[i] in xs || Interleave(xs, ys, zs)[i] in ys || Interleave(xs, ys, zs)[i] in zs
    decreases i
  {
    if i >= 3 {
      InterleaveFrom(xs[1..], ys[1..], zs[1..], i - 3);
    }
  }

  /** Where sample `j` of axis `a` sits in a blocked header: after the earlier axes' blocks. */
  lemma BlockedPosition(w: nat, time: string, a: Axis, j: nat)
    requires 1 <= j <= w
    ensures AxisNo(a) * w + j - 1 < 3 * w
    ensures Header(w, Blocked, time)[AxisNo(a) * w + j - 1] == Sample(a, j)
  {
    var h := Header(w, Blocked, time);
    match a
    case X =>
    case Y =>
      assert AxisNo(a) * w == w;
    case Z =>
      assert AxisNo(a) * w == 2 * w;
  }

  /** Where sample `j` of axis `a` sits in an interleaved header: slot `a` of triple `j`. */
  lemma InterleavedPosition(w: nat, time: string, a: Axis, j: nat)
    requires 1 <= j <= w
    ensures 3 * (j - 1) + AxisNo(a) < 3 * w
    ensures Header(w, Interleaved, time)[3 * (j - 1) + AxisNo(a)] == Sample(a, j)
  {
    InterleaveAt(AxisHeader(X, w), AxisHeader(Y, w), AxisHeader(Z, w), j - 1);
  }

  /** Every non-time label of a header is a sample 1..w. */
  lemma HeaderSamples(w: nat, layout: Layout, time: string, i: nat)
    requires i < 3 * w
    ensures |Header(w, layout, time)| == 3 * w + 1
    ensures Header(w, layout, time)[i].Sample? && 1 <= Header(w, layout, time)[i].pos <= w
  {
    match layout
    case Blocked =>
    case Interleaved =>
      InterleaveFrom(AxisHeader(X, w), AxisHeader(Y, w), AxisHeader(Z, w), i);
  }

  /** A header holds the time column and the samples 1..w of every axis, and nothing else. */
  lemma HeaderFields(w: nat, layout: Layout, time: string, f: Field)
    ensures |Header(w, layout, time)| == 3 * w + 1
    ensures f in Header(w, layout, time) <==>
      f == Named(time) || (f.Sample? && 1 <= f.pos <= w)
  {
    var h := Header(w, layout, time);
    assert h[3 * w] == Named(time);
    if f.Sample? && 1 <= f.pos <= w {
      match layout
      case Blocked =>
        BlockedPosition(w, time, f.axis, f.pos);
      case Interleaved =>
        InterleavedPosition(w, time, f.axis, f.pos);
    }
    if f in h && f != Named(time) {
      var i :| 0 <= i < |h| && h[i] == f;
      HeaderSamples(w, layout, time, i);
    }
  }

  /** The cell a flattened row holds under column label `f`. */
  function CellOf(row: FlatRow, f: Field): Cell {
    match f
    case Sample(a, j) =>
      if 1 <= j <= |AxisCells(row, a)| then AxisCells(row, a)[j - 1] else None
    case Named(_) => row.time
  }

  /** Flattened rows as a frame (`pd.DataFrame(rows)`). */
  function ToFrame(rows: seq<FlatRow>, w: nat, layout: Layout, time: string): (df: Frame)
    ensures df.WellFormed()
  {
    var h := Header(w, layout, time);
    Frame(h, seq(|rows|, k requires 0 <= k < |rows| =>
                          seq(|h|, i requires 0 <= i < |h| => CellOf(rows[k], h[i]))))
  }

  /** Sample `j` of a flattened window on axis `a` is that axis of reading `j`. */
  lemma MakeRowCell(block: seq<Reading>, stamp: Stamp, a: Axis, j: nat)
    requires j < |block|
    ensures |AxisCells(MakeRow(block, stamp), a)| == |block|
    ensures CellOf(MakeRow(block, stamp), Sample(a, j + 1)) == AxisCell(block[j], a)
  {
    match a
    case X =>
    case Y =>
    case Z =>
  }

  /** Looking a header label up in a frame of flattened rows finds that row's cell. */
  lemma ToFrameLookup(rows: seq<FlatRow>, w: nat, layout: Layout, time: string, k: nat, f: Field)
    requires k < |rows| && f in Header(w, layout, time)
    ensures Lookup(ToFrame(rows, w, layout, time), k, f) == CellOf(rows[k], f)
  {
  }

  /** Column a_{j+1} of row `k` is channel `a` of reading `base + j` when window `k` starts at `base`. */
  lemma RowCell(rs: seq<Reading>, w: nat, stamp: Stamp, layout: Layout, time: string,
                k: nat, j: nat, a: Axis, base: nat)
    requires w > 0 && j < w && base + w <= |rs| && k < |Windows(rs, w, stamp)|
    requires Windows(rs, w, stamp)[k] == MakeRow(rs[base .. base + w], stamp)
    ensures Sample(a, j + 1) in Header(w, layout, time)
    ensures Lookup(ToFrame(Windows(rs, w, stamp), w, layout, time), k, Sample(a, j + 1)) == AxisCell(rs[base + j], a)
  {
    var rows := Windows(rs, w, stamp);
    HeaderFields(w, layout, time, Sample(a, j + 1));
    ToFrameLookup(rows, w, layout, time, k, Sample(a, j + 1));
    MakeRowCell(rs[base .. base + w], stamp, a, j);
  }

  /**
   * Reading a frame built from windows back by label: column a_{j+1} of row
   * `k` is channel `a` of reading `k*w + j`.
   */
  lemma FrameOfWindows(rs: seq<Reading>, w: nat, stamp: Stamp, layout: Layout, time: string,
                       k: nat, j: nat, a: Axis)
    requires w > 0 && k < |rs| / w && j < w
    ensures 0 <= k * w && k * w + w <= |rs|
    ensures |ToFrame(Windows(rs, w, stamp), w, layout, time).rows| == |rs| / w
    ensures Sample(a, j + 1) in Header(w, layout, time)
    ensures Lookup(ToFrame(Windows(rs, w, stamp), w, layout, time), k, Sample(a, j + 1)) ==
      AxisCell(rs[k * w + j], a)
  {
    WindowSlice(rs, w, stamp, k);
    RowCell(rs, w, stamp, layout, time, k, j, a, k * w);
  }

  /** The time column of row `k` is the stamp of the window that starts at `base`. */
  lemma RowTime(rs: seq<Reading>, w: nat, stamp: Stamp, layout: Layout, time: string, k: nat, base: nat)
    requires w > 0 && base + w <= |rs| && k < |Windows(rs, w, stamp)|
    requires Windows(rs, w, stamp)[k] == MakeRow(rs[base .. base + w], stamp)
    ensures Named(time) in Header(w, layout, time)
    ensures Lookup(ToFrame(Windows(rs, w, stamp), w, layout, time), k, Named(time)) ==
      if stamp == LastSample then rs[base + w - 1].t else rs[base].t
  {
    HeaderFields(w, layout, time, Named(time));
    ToFrameLookup(Windows(rs, w, stamp), w, layout, time, k, Named(time));
  }

  /** The time column of row `k` of a frame built from windows is its window's stamp. */
  lemma FrameTimeOfWindows(rs: seq<Reading>, w: nat, stamp: Stamp, layout: Layout, time: string,
                           k: nat)
    requires w > 0 && k < |rs| / w
    ensures 0 <= k * w && k * w + w <= |rs|
    ensures |ToFrame(Windows(rs, w, stamp), w, layout, time).rows| == |rs| / w
    ensures Named(time) in Header(w, layout, time)
    ensures Lookup(ToFrame(Windows(rs, w, stamp), w, layout, time), k, Named(time)) ==
      if stamp == LastSample then rs[k * w + w - 1].t else rs[k * w].t
  {
    WindowSlice(rs, w, stamp, k);
    RowTime(rs, w, stamp, layout, time, k, k * w);
  }
}
