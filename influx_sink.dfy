/**
 * Writing labelled windows to the time-series store: rows whose time does
 * not parse are skipped, every other row becomes one point (behaviour and
 * confidence fields, a `sheep_id` tag when the row has a truthy sheep value),
 * and all points go out in one batched write.
 */
module InfluxSink {
  import opened Tables

  /** One point: measurement, the two fields, the timestamp, and the optional `sheep_id` tag. */
  datatype Point = Point(measurement: string, behaviour: Cell, confidence: Cell, time: int, sheepId: Option<Cell>)

  datatype SinkError = KeyMissing(column: string)

  /** The store's write API: it records every batch it is handed. */
  class Sink {
    var writes: seq<seq<Point>>

    constructor ()
      ensures writes == []
    {
      writes := [];
    }

    /** One batched write of `points`. */
    method Write(points: seq<Point>)
      modifies this
      ensures writes == old(writes) + [points]
    {
      writes := writes + [points];
    }
  }

  /**
   * Python truthiness of a cell: a number is truthy unless zero, a string
   * unless empty, and a missing value (NaN) is truthy.
   */
  function Truthy(c: Cell): (b: bool)
    ensures !b <==> c == Some(Num(0.0)) || c == Some(Text(""))
  {
    match c
    case None => true
    case Some(Num(r)) => r != 0.0
    case Some(Text(s)) => s != ""
  }

  /** The parsed time of every row (`pd.to_datetime(..., errors="coerce")`), None where it fails. */
  function Times(df: Frame, parse: Cell -> Option<int>): (ts: seq<Option<int>>)
    requires df.WellFormed() && Named("Time") in df.columns
    ensures |ts| == |df.rows|
    ensures forall n | 0 <= n < |df.rows| :: ts[n] == parse(Lookup(df, n, Named("Time")))
  {
    seq(|df.rows|, n requires 0 <= n < |df.rows| => parse(Lookup(df, n, Named("Time"))))
  }

  /** The positions of the parsed times, in increasing order: exactly the rows the mask keeps. */
  function Valid(ts: seq<Option<int>>): (idx: seq<nat>)
    ensures forall k | 0 <= k < |idx| :: idx[k] < |ts| && ts[idx[k]].Some?
    ensures forall k, l | 0 <= k < l < |idx| :: idx[k] < idx[l]
    ensures forall n | 0 <= n < |ts| && ts[n].Some? :: n in idx
    ensures |idx| <= |ts|
  {
    if ts == [] then []
    else
      var rest := Valid(ts[..|ts| - 1]);
      rest + (if ts[|ts| - 1].Some? then [|ts| - 1] else [])
  }

  /** The columns a point is built from are all present. */
  predicate HasPointColumns(df: Frame) {
    Named("Time") in df.columns && Named("behaviour") in df.columns && Named("confidence") in df.columns
  }

  /** The point for row `n`, whose time parsed to `t`. */
  function MakePoint(df: Frame, n: nat, t: int, measurement: string, tagColumn: string): (p: Point)
    requires df.WellFormed() && HasPointColumns(df) && n < |df.rows|
    ensures p.measurement == measurement && p.time == t
    ensures p.behaviour == Lookup(df, n, Named("behaviour")) && p.confidence == Lookup(df, n, Named("confidence"))
    ensures p.sheepId.Some? <==> Named(tagColumn) in df.columns && Truthy(Lookup(df, n, Named(tagColumn)))
    ensures p.sheepId.Some? ==> p.sheepId.value == Lookup(df, n, Named(tagColumn))
  {
    var tag := if Named(tagColumn) in df.columns && Truthy(Lookup(df, n, Named(tagColumn)))
               then Some(Lookup(df, n, Named(tagColumn))) else None;
    Point(measurement, Lookup(df, n, Named("behaviour")), Lookup(df, n, Named("confidence")), t, tag)
  }

  /** The points of the first `n` rows whose time parsed, in row order. */
  function PointsUpTo(df: Frame, ts: seq<Option<int>>, measurement: string, tagColumn: string, n: nat): (ps: seq<Point>)
    requires df.WellFormed() && HasPointColumns(df) && |ts| == |df.rows| && n <= |ts|
    ensures |ps| <= n
    ensures (forall m | 0 <= m < n :: ts[m].None?) ==> ps == []
  {
    if n == 0 then []
    else PointsUpTo(df, ts, measurement, tagColumn, n - 1)
         + (if ts[n - 1].Some? then [MakePoint(df, n - 1, ts[n - 1].value, measurement, tagColumn)] else [])
  }

  /** Whether any row's time parses (`mask.any()`). */
  predicate AnyParsed(ts: seq<Option<int>>) {
    exists n | 0 <= n < |ts| :: ts[n].Some?
  }

  /**
   * `write_behaviour_to_influx` with the time parser and the client's write
   * API as parameters: a missing Time column raises, no parsed time means
   * nothing is written and 0 is returned, a missing behaviour or confidence
   * column raises, and otherwise one batch of points is written and its
   * length returned.
   */
  method WriteBehaviour(df: Frame, parse: Cell -> Option<int>, sink: Sink, measurement: string, tagColumn: string)
    returns (r: Result<nat, SinkError>)
    requires df.WellFormed()
    modifies sink
    ensures Named("Time") !in df.columns ==> r == Err(KeyMissing("Time")) && sink.writes == old(sink.writes)
    ensures Named("Time") in df.columns && !AnyParsed(Times(df, parse)) ==> r == Ok(0) && sink.writes == old(sink.writes)
    ensures Named("Time") in df.columns && AnyParsed(Times(df, parse)) && Named("behaviour") !in df.columns ==>
      r == Err(KeyMissing("behaviour")) && sink.writes == old(sink.writes)
    ensures Named("Time") in df.columns && AnyParsed(Times(df, parse)) && Named("behaviour") in df.columns
            && Named("confidence") !in df.columns ==>
      r == Err(KeyMissing("confidence")) && sink.writes == old(sink.writes)
    ensures HasPointColumns(df) && AnyParsed(Times(df, parse)) ==>
      var points := PointsUpTo(df, Times(df, parse), measurement, tagColumn, |df.rows|);
      r == Ok(|points|) && sink.writes == old(sink.writes) + [points]
  {
    if Named("Time") !in df.columns {
      return Err(KeyMissing("Time"));
    }
    var times := Times(df, parse);
    if !AnyParsed(times) {
      return Ok(0);
    }
    if Named("behaviour") !in df.columns {
      return Err(KeyMissing("behaviour"));
    }
    if Named("confidence") !in df.columns {
      return Err(KeyMissing("confidence"));
    }
    var points: seq<Point> := [];
    for n := 0 to |df.rows|
      invariant points == PointsUpTo(df, times, measurement, tagColumn, n)
    {
      if times[n].Some? {
        points := points + [MakePoint(df, n, times[n].value, measurement, tagColumn)];
      }
    }
    sink.Write(points);
    return Ok(|points|);
  }

  /**
   * The batch holds one point per row whose time parsed, in row order:
   * point `k` comes from the `k`-th such row, carries its parsed time, its
   * behaviour and confidence, and a `sheep_id` tag exactly when the tag
   * column exists and the row's value there is truthy.
   */
  /** One point per row whose time parsed among the first `n`. */
  lemma {:induction false} PointsCount(df: Frame, ts: seq<Option<int>>, measurement: string, tagColumn: string, n: nat)
    requires df.WellFormed() && HasPointColumns(df) && |ts| == |df.rows| && n <= |ts|
    ensures |PointsUpTo(df, ts, measurement, tagColumn, n)| == |Valid(ts[..n])|
  {
    if n > 0 {
      PointsCount(df, ts, measurement, tagColumn, n - 1);
      assert ts[..n][..n - 1] == ts[..n - 1];
    }
  }

  /**
   * `p` is the point of row `row`: that row's time parsed, and `p` carries the
   * measurement, the parsed time, the row's behaviour and confidence, and a
   * `sheep_id` tag exactly when the tag column exists and the row's value
   * there is truthy.
   */
  predicate PointOfRow(df: Frame, ts: seq<Option<int>>, measurement: string, tagColumn: string, row: nat, p: Point)
    requires df.WellFormed() && HasPointColumns(df) && |ts| == |df.rows|
  {
    && row < |df.rows| && ts[row].Some?
    && p.measurement == measurement
    && p.time == ts[row].value
    && p.behaviour == Lookup(df, row, Named("behaviour"))
    && p.confidence == Lookup(df, row, Named("confidence"))
    && (p.sheepId.Some? <==> Named(tagColumn) in df.columns && Truthy(Lookup(df, row, Named(tagColumn))))
    && (p.sheepId.Some? ==> p.sheepId.value == Lookup(df, row, Named(tagColumn)))
  }

  /** The point built for a row whose time parsed is that row's point. */
  lemma MakePointOfRow(df: Frame, ts: seq<Option<int>>, measurement: string, tagColumn: string, row: nat)
    requires df.WellFormed() && HasPointColumns(df) && |ts| == |df.rows| && row < |ts| && ts[row].Some?
    ensures PointOfRow(df, ts, measurement, tagColumn, row, MakePoint(df, row, ts[row].value, measurement, tagColumn))
  {
  }

  lemma {:induction false} PointsOfValidRows(df: Frame, ts: seq<Option<int>>, measurement: string, tagColumn: string, n: nat)
    requires df.WellFormed() && HasPointColumns(df) && |ts| == |df.rows| && n <= |ts|
    ensures |PointsUpTo(df, ts, measurement, tagColumn, n)| == |Valid(ts[..n])|
    ensures forall k | 0 <= k < |Valid(ts[..n])| ::
      PointOfRow(df, ts, measurement, tagColumn, Valid(ts[..n])[k], PointsUpTo(df, ts, measurement, tagColumn, n)[k])
  {
    PointsCount(df, ts, measurement, tagColumn, n);
    if n > 0 {
      PointsOfValidRows(df, ts, measurement, tagColumn, n - 1);
      ValidStep(ts, n);
      var before := PointsUpTo(df, ts, measurement, tagColumn, n - 1);
      assert PointsUpTo(df, ts, measurement, tagColumn, n) ==
        before + (if ts[n - 1].Some? then [MakePoint(df, n - 1, ts[n - 1].value, measurement, tagColumn)] else []);
      PointsExtend(df, ts, measurement, tagColumn, Valid(ts[..n - 1]), before, n - 1);
    }
  }

  /** Pairing kept rows with their points survives looking at one more row. */
  lemma PointsExtend(df: Frame, ts: seq<Option<int>>, measurement: string, tagColumn: string,
                     rows: seq<nat>, points: seq<Point>, row: nat)
    requires df.WellFormed() && HasPointColumns(df) && |ts| == |df.rows| && row < |ts|
    requires |rows| == |points|
    requires forall k | 0 <= k < |rows| :: PointOfRow(df, ts, measurement, tagColumn, rows[k], points[k])
    ensures var rows' := rows + (if ts[row].Some? then [row] else []);
            var points' := points + (if ts[row].Some? then [MakePoint(df, row, ts[row].value, measurement, tagColumn)] else []);
            forall k | 0 <= k < |rows'| :: PointOfRow(df, ts, measurement, tagColumn, rows'[k], points'[k])
  {
    if ts[row].Some? {
      MakePointOfRow(df, ts, measurement, tagColumn, row);
    }
  }

  /** Looking at one more row appends it to the kept rows exactly when its time parsed. */
  lemma ValidStep(ts: seq<Option<int>>, n: nat)
    requires 0 < n <= |ts|
    ensures Valid(ts[..n]) == Valid(ts[..n - 1]) + (if ts[n - 1].Some? then [n - 1] else [])
  {
    assert ts[..n][..n - 1] == ts[..n - 1];
  }

  /** Some row is kept exactly when some time parsed. */
  lemma ValidNonEmpty(ts: seq<Option<int>>)
    ensures |Valid(ts)| > 0 <==> AnyParsed(ts)
  {
    if AnyParsed(ts) {
      var n :| 0 <= n < |ts| && ts[n].Some?;
      assert n in Valid(ts);
    }
    if |Valid(ts)| > 0 {
      assert ts[Valid(ts)[0]].Some?;
    }
  }

  /**
   * The number returned is the number of rows whose time parsed: the
   * length of the increasing enumeration of exactly those rows.
   */
  lemma WriteCount(df: Frame, parse: Cell -> Option<int>, measurement: string, tagColumn: string)
    requires df.WellFormed() && HasPointColumns(df)
    ensures |PointsUpTo(df, Times(df, parse), measurement, tagColumn, |df.rows|)| == |Valid(Times(df, parse))|
    ensures |Valid(Times(df, parse))| > 0 <==> AnyParsed(Times(df, parse))
  {
    var ts := Times(df, parse);
    PointsCount(df, ts, measurement, tagColumn, |df.rows|);
    assert ts[..|df.rows|] == ts;
    ValidNonEmpty(ts);
  }
}
