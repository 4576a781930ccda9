/**
 * The tensor builder and the labeller: a flattened frame becomes an
 * N x 30 x 3 tensor, an opaque classifier turns it into a probability row per
 * window, and each row is reduced to the label at its argmax and its maximum.
 */
module Predict {
  import opened Tables
  import opened Windowing
  import ChunkedFlatten
  import BlockFlatten

  /** The window length the classifier was trained on. */
  const SeqLength: nat := 30

  /** Both flatteners' default window lengths give the 30 steps the tensor takes. */
  lemma DefaultsMatchTensor()
    ensures ChunkedFlatten.DefaultWindow == SeqLength && BlockFlatten.DefaultSeqLen == SeqLength
  {
  }

  /** An N x 30 x 3 tensor of cells: window, time step, channel (x, y, z). */
  type Tensor = seq<seq<seq<Cell>>>

  /** One probability row per window, one column per class. */
  type Matrix = seq<seq<real>>

  datatype PredictError =
    | ColumnsMissing(fields: seq<Field>)          // selecting an axis group lacks these columns
    | ArgmaxOfEmpty                               // argmax over rows with no classes
    | LabelIndexOutOfRange(index: nat)            // `labels[i]` with i >= len(labels)
    | LengthMismatch(values: nat, rows: nat)      // a new column's length differs from the frame's

  /** The columns a_1 .. a_30 of one axis, in order. */
  function AxisFields(a: Axis): (fs: seq<Field>)
    ensures |fs| == SeqLength
    ensures forall j | 0 <= j < SeqLength :: fs[j] == Sample(a, j + 1)
  {
    seq(SeqLength, j requires 0 <= j < SeqLength => Sample(a, j + 1))
  }

  /** The fields of `fs` that are not columns, in order. */
  function Absent(fs: seq<Field>, columns: seq<Field>): (missing: seq<Field>)
    ensures forall f | f in missing :: f in fs && f !in columns
    ensures forall f | f in fs && f !in columns :: f in missing
  {
    if fs == [] then []
    else (if fs[0] in columns then [] else [fs[0]]) + Absent(fs[1..], columns)
  }

  /** The first axis group, in the order x, y, z, that lacks columns. */
  function MissingGroup(columns: seq<Field>): (r: Option<seq<Field>>)
    ensures r.Some? ==> r.value != [] && forall f | f in r.value :: f !in columns
  {
    if Absent(AxisFields(X), columns) != [] then Some(Absent(AxisFields(X), columns))
    else if Absent(AxisFields(Y), columns) != [] then Some(Absent(AxisFields(Y), columns))
    else if Absent(AxisFields(Z), columns) != [] then Some(Absent(AxisFields(Z), columns))
    else None
  }

  /** Every column x_1 .. x_30, y_1 .. y_30 and z_1 .. z_30 is present. */
  predicate HasAxisColumns(columns: seq<Field>) {
    forall a: Axis, j | 1 <= j <= SeqLength :: Sample(a, j) in columns
  }

  /**
   * A group is reported missing exactly when some axis column is absent, and
   * what is reported are absent columns of one axis, in order.
   */
  lemma MissingGroupSpec(columns: seq<Field>)
    ensures MissingGroup(columns).None? <==> HasAxisColumns(columns)
    ensures MissingGroup(columns).Some? ==>
      && MissingGroup(columns).value != []
      && exists a: Axis :: forall f | f in MissingGroup(columns).value :: f in AxisFields(a) && f !in columns
  {
    forall a: Axis, j | 1 <= j <= SeqLength ensures Sample(a, j) in AxisFields(a) {
      assert AxisFields(a)[j - 1] == Sample(a, j);
    }
    if MissingGroup(columns).None? {
      forall a: Axis, j | 1 <= j <= SeqLength ensures Sample(a, j) in columns {
        assert Absent(AxisFields(a), columns) == [] by {
          match a
          case X =>
          case Y =>
          case Z =>
        }
      }
    } else {
      var m := MissingGroup(columns).value;
      assert m != [];
      assert m[0] in m;
    }
  }

  /** Step `j` of window `n`: `[x_{j+1}, y_{j+1}, z_{j+1}]` of row `n`. */
  function Step(df: Frame, n: nat, j: nat): seq<Cell>
    requires df.WellFormed() && HasAxisColumns(df.columns) && n < |df.rows| && j < SeqLength
  {
    [Lookup(df, n, Sample(X, j + 1)), Lookup(df, n, Sample(Y, j + 1)), Lookup(df, n, Sample(Z, j + 1))]
  }

  /** The stacked tensor of a frame that has all 90 axis columns. */
  function Stack(df: Frame): (t: Tensor)
    requires df.WellFormed() && HasAxisColumns(df.columns)
    ensures |t| == |df.rows|
    ensures forall n | 0 <= n < |df.rows| :: |t[n]| == SeqLength
    ensures forall n, j | 0 <= n < |df.rows| && 0 <= j < SeqLength :: t[n][j] == Step(df, n, j)
  {
    seq(|df.rows|, n requires 0 <= n < |df.rows| =>
          seq(SeqLength, j requires 0 <= j < SeqLength => Step(df, n, j)))
  }

  /**
   * `build_seq_3`: the x, y and z column groups stacked on the last axis,
   * so that step `j` of window `n` is `[x_{j+1}, y_{j+1}, z_{j+1}]` of row `n`;
   * selecting a group with absent columns fails, naming them.
   */
  function BuildSeq3(df: Frame): (r: Result<Tensor, PredictError>)
    requires df.WellFormed()
    ensures r.Ok? <==> HasAxisColumns(df.columns)
    ensures r.Err? ==> MissingGroup(df.columns).Some? && r == Err(ColumnsMissing(MissingGroup(df.columns).value))
    ensures r.Ok? ==> r.value == Stack(df)
  {
    MissingGroupSpec(df.columns);
    match MissingGroup(df.columns)
    case Some(missing) => Err(ColumnsMissing(missing))
    case None => Ok(Stack(df))
  }

  /** A frame of 30-sample rows has every column the tensor builder selects. */
  lemma WindowFrameColumns(rows: seq<FlatRow>, layout: Layout, time: string)
    ensures HasAxisColumns(ToFrame(rows, SeqLength, layout, time).columns)
  {
    forall a: Axis, j | 1 <= j <= SeqLength ensures Sample(a, j) in Header(SeqLength, layout, time) {
      HeaderFields(SeqLength, layout, time, Sample(a, j));
    }
  }

  /**
   * The tensor of a frame of 30-sample windows holds the readings themselves:
   * step `j` of window `n` is x, y and z of reading `n*30 + j`, whichever
   * column order the frame uses.
   */
  lemma TensorOfWindows(rs: seq<Reading>, stamp: Stamp, layout: Layout, time: string, n: nat, j: nat)
    requires n < |rs| / SeqLength && j < SeqLength
    ensures BuildSeq3(ToFrame(Windows(rs, SeqLength, stamp), SeqLength, layout, time)).Ok?
    ensures n * SeqLength + j < |rs|
    ensures n < |BuildSeq3(ToFrame(Windows(rs, SeqLength, stamp), SeqLength, layout, time)).value|
    ensures BuildSeq3(ToFrame(Windows(rs, SeqLength, stamp), SeqLength, layout, time)).value[n][j] ==
      [rs[n * SeqLength + j].x, rs[n * SeqLength + j].y, rs[n * SeqLength + j].z]
  {
    WindowSlice(rs, SeqLength, stamp, n);
    TensorStep(rs, stamp, layout, time, n, j, n * SeqLength);
  }

  /** Step `j` of window `n` holds reading `base + j` when window `n` starts at `base`. */
  lemma TensorStep(rs: seq<Reading>, stamp: Stamp, layout: Layout, time: string, n: nat, j: nat, base: nat)
    requires j < SeqLength && base + SeqLength <= |rs| && n < |Windows(rs, SeqLength, stamp)|
    requires Windows(rs, SeqLength, stamp)[n] == MakeRow(rs[base .. base + SeqLength], stamp)
    ensures BuildSeq3(ToFrame(Windows(rs, SeqLength, stamp), SeqLength, layout, time)).Ok?
    ensures n < |BuildSeq3(ToFrame(Windows(rs, SeqLength, stamp), SeqLength, layout, time)).value|
    ensures BuildSeq3(ToFrame(Windows(rs, SeqLength, stamp), SeqLength, layout, time)).value[n][j] ==
      [rs[base + j].x, rs[base + j].y, rs[base + j].z]
  {
    var df := ToFrame(Windows(rs, SeqLength, stamp), SeqLength, layout, time);
    WindowFrameColumns(Windows(rs, SeqLength, stamp), layout, time);
    RowCell(rs, SeqLength, stamp, layout, time, n, j, X, base);
    RowCell(rs, SeqLength, stamp, layout, time, n, j, Y, base);
    RowCell(rs, SeqLength, stamp, layout, time, n, j, Z, base);
    StepOfReading(df, n, j, rs[base + j]);
  }

  /** A step whose three cells are those of one reading is that reading's x, y and z. */
  lemma StepOfReading(df: Frame, n: nat, j: nat, r: Reading)
    requires df.WellFormed() && HasAxisColumns(df.columns) && n < |df.rows| && j < SeqLength
    requires Lookup(df, n, Sample(X, j + 1)) == AxisCell(r, X)
    requires Lookup(df, n, Sample(Y, j + 1)) == AxisCell(r, Y)
    requires Lookup(df, n, Sample(Z, j + 1)) == AxisCell(r, Z)
    ensures BuildSeq3(df).Ok? && n < |BuildSeq3(df).value|
    ensures BuildSeq3(df).value[n][j] == [r.x, r.y, r.z]
  {
    assert BuildSeq3(df).value[n][j] == Step(df, n, j);
  }

  /**
   * The empty output of the chunked flattener still carries the 30-sample
   * header, whatever its window, so the tensor builder accepts it.
   */
  lemma EmptyFlattenTensor(window: nat)
    ensures ChunkedFlatten.Output([], window).WellFormed()
    ensures BuildSeq3(ChunkedFlatten.Output([], window)) == Ok([])
  {
    var df := ChunkedFlatten.Output([], window);
    forall a: Axis, j | 1 <= j <= SeqLength ensures Sample(a, j) in df.columns {
      ChunkedFlatten.OutputHeader([], window, Sample(a, j));
    }
  }

  // ---- argmax and max -------------------------------------------------------

  /** `argmax` of a row: a position of its largest value, the lowest one on ties. */
  function ArgMax(p: seq<real>): (i: nat)
    requires |p| > 0
    ensures i < |p|
    ensures forall k | 0 <= k < |p| :: p[k] <= p[i]
    ensures forall k | 0 <= k < i :: p[k] < p[i]
  {
    if |p| == 1 then 0
    else
      var i := ArgMax(p[..|p| - 1]);
      if p[|p| - 1] > p[i] then |p| - 1 else i
  }

  /** `max` of a row: a value of the row that no value exceeds. */
  function RowMax(p: seq<real>): (m: real)
    requires |p| > 0
    ensures m in p
    ensures forall k | 0 <= k < |p| :: p[k] <= m
  {
    if |p| == 1 then p[0]
    else
      var m := RowMax(p[..|p| - 1]);
      if p[|p| - 1] > m then p[|p| - 1] else m
  }

  /** The confidence is the probability of the chosen class. */
  lemma RowMaxAtArgMax(p: seq<real>)
    requires |p| > 0
    ensures RowMax(p) == p[ArgMax(p)]
  {
    var k :| 0 <= k < |p| && p[k] == RowMax(p);
    assert p[k] <= p[ArgMax(p)];
  }

  /** `[labels[i] for i in idx]`: the first index out of range raises. */
  function LabelsAt(idx: seq<nat>, labels: seq<string>): (r: Result<seq<string>, PredictError>)
    ensures r.Ok? <==> forall n | 0 <= n < |idx| :: idx[n] < |labels|
    ensures r.Ok? ==> |r.value| == |idx| && forall n | 0 <= n < |idx| :: r.value[n] == labels[idx[n]]
    ensures r.Err? ==> exists n | 0 <= n < |idx| ::
      && idx[n] >= |labels|
      && (forall m | 0 <= m < n :: idx[m] < |labels|)
      && r.error == LabelIndexOutOfRange(idx[n])
  {
    if idx == [] then Ok([])
    else if idx[0] >= |labels| then Err(LabelIndexOutOfRange(idx[0]))
    else match LabelsAt(idx[1..], labels)
      case Err(e) =>
        assert forall m | 1 <= m < |idx| :: idx[m] == idx[1..][m - 1];
        Err(e)
      case Ok(rest) => Ok([labels[idx[0]]] + rest)
  }

  // ---- the labelled frame ----------------------------------------------------

  /**
   * `out[f] = vals`: replaces the column `f` when the frame has it and
   * appends it as the last column otherwise.
   */
  function SetColumn(df: Frame, f: Field, vals: seq<Cell>): (out: Frame)
    requires df.WellFormed() && |vals| == |df.rows|
    ensures out.WellFormed()
  {
    if f in df.columns then
      assert forall n | 0 <= n < |df.rows| :: |df.rows[n][IndexOf(df.columns, f) := vals[n]]| == |df.columns|;
      Frame(df.columns, seq(|df.rows|, n requires 0 <= n < |df.rows| => df.rows[n][IndexOf(df.columns, f) := vals[n]]))
    else
      Frame(df.columns + [f], seq(|df.rows|, n requires 0 <= n < |df.rows| => df.rows[n] + [vals[n]]))
  }

  /** Assigning a column sets exactly that column and keeps every row and every other column. */
  lemma SetColumnSpec(df: Frame, f: Field, vals: seq<Cell>, n: nat, g: Field)
    requires df.WellFormed() && |vals| == |df.rows| && n < |df.rows|
    ensures SetColumn(df, f, vals).columns == if f in df.columns then df.columns else df.columns + [f]
    ensures |SetColumn(df, f, vals).rows| == |df.rows|
    ensures Lookup(SetColumn(df, f, vals), n, f) == vals[n]
    ensures g in df.columns && g != f ==> Lookup(SetColumn(df, f, vals), n, g) == Lookup(df, n, g)
  {
    var out := SetColumn(df, f, vals);
    if f !in df.columns {
      IndexOfPrefix(df.columns, [f], f);
      if g in df.columns {
        IndexOfPrefix(df.columns, [f], g);
      }
    }
  }

  /** Appending keeps the position of a label that is already present and puts a new one last. */
  lemma {:induction false} IndexOfPrefix(s: seq<Field>, t: seq<Field>, x: Field)
    requires x in s + t
    ensures x in s ==> IndexOf(s + t, x) == IndexOf(s, x)
    ensures x !in s ==> IndexOf(s + t, x) == |s| + IndexOf(t, x)
  {
    if s == [] {
      assert s + t == t;
    } else if s[0] != x {
      assert (s + t)[1..] == s[1..] + t;
      IndexOfPrefix(s[1..], t, x);
    }
  }

  /** No probability row is empty, so every row has an argmax. */
  predicate NoEmptyRow(probs: Matrix) {
    forall n | 0 <= n < |probs| :: probs[n] != []
  }

  /** `probs.argmax(axis=1)`. */
  function Argmaxes(probs: Matrix): (idx: seq<nat>)
    requires NoEmptyRow(probs)
    ensures |idx| == |probs| && forall n | 0 <= n < |probs| :: idx[n] == ArgMax(probs[n])
  {
    seq(|probs|, n requires 0 <= n < |probs| => ArgMax(probs[n]))
  }

  /** `probs.max(axis=1)`. */
  function Maxima(probs: Matrix): (conf: seq<real>)
    requires NoEmptyRow(probs)
    ensures |conf| == |probs| && forall n | 0 <= n < |probs| :: conf[n] == RowMax(probs[n])
  {
    seq(|probs|, n requires 0 <= n < |probs| => RowMax(probs[n]))
  }

  /** `out["behaviour"] = names` then `out["confidence"] = conf` on a copy of the frame. */
  function AddPrediction(df: Frame, names: seq<string>, conf: seq<real>): (out: Frame)
    requires df.WellFormed() && |names| == |df.rows| && |conf| == |df.rows|
    ensures out.WellFormed() && |out.rows| == |df.rows|
  {
    var withBehaviour := SetColumn(df, Named("behaviour"), seq(|names|, n requires 0 <= n < |names| => Some(Text(names[n]))));
    SetColumn(withBehaviour, Named("confidence"), seq(|conf|, n requires 0 <= n < |conf| => Some(Num(conf[n]))))
  }

  /**
   * The copy keeps every row and every column with its cells, adds only
   * `behaviour` and `confidence` (last, when they were absent), and holds
   * the given label and confidence in row `n`.
   */
  lemma AddPredictionSpec(df: Frame, names: seq<string>, conf: seq<real>, n: nat, g: Field)
    requires df.WellFormed() && |names| == |df.rows| && |conf| == |df.rows| && n < |df.rows|
    ensures AddPrediction(df, names, conf).columns == df.columns
      + (if Named("behaviour") in df.columns then [] else [Named("behaviour")])
      + (if Named("confidence") in df.columns then [] else [Named("confidence")])
    ensures Named("behaviour") in AddPrediction(df, names, conf).columns
    ensures Named("confidence") in AddPrediction(df, names, conf).columns
    ensures Lookup(AddPrediction(df, names, conf), n, Named("behaviour")) == Some(Text(names[n]))
    ensures Lookup(AddPrediction(df, names, conf), n, Named("confidence")) == Some(Num(conf[n]))
    ensures g in df.columns && g != Named("behaviour") && g != Named("confidence") ==>
      Lookup(AddPrediction(df, names, conf), n, g) == Lookup(df, n, g)
  {
    var bCells := seq(|names|, i requires 0 <= i < |names| => Some(Text(names[i])));
    var cCells := seq(|conf|, i requires 0 <= i < |conf| => Some(Num(conf[i])));
    var mid := SetColumn(df, Named("behaviour"), bCells);
    SetColumnSpec(df, Named("behaviour"), bCells, n, g);
    SetColumnSpec(mid, Named("confidence"), cCells, n, g);
    SetColumnSpec(mid, Named("confidence"), cCells, n, Named("behaviour"));
  }

  /**
   * `predict_labels` with the loaded model as `classify`: build the tensor,
   * take argmax and max of every probability row, look the labels up, and
   * add `behaviour` and `confidence` to a copy of the frame.
   */
  function PredictLabels(df: Frame, classify: Tensor -> Matrix, labels: seq<string>): (r: Result<Frame, PredictError>)
    requires df.WellFormed()
    ensures r.Ok? ==> r.value.WellFormed() && |r.value.rows| == |df.rows|
  {
    match BuildSeq3(df)
    case Err(e) => Err(e)
    case Ok(x) =>
      var probs := classify(x);
      if !NoEmptyRow(probs) then Err(ArgmaxOfEmpty)
      else
        match LabelsAt(Argmaxes(probs), labels)
        case Err(e) => Err(e)
        case Ok(names) =>
          if |names| != |df.rows| then Err(LengthMismatch(|names|, |df.rows|))
          else Ok(AddPrediction(df, names, Maxima(probs)))
  }

  /**
   * `predict_labels` fails exactly when the tensor cannot be built, a
   * probability row is empty, an argmax is not a label index, or the
   * classifier's row count differs from the frame's, checked in that order.
   */
  lemma PredictLabelsErrors(df: Frame, classify: Tensor -> Matrix, labels: seq<string>)
    requires df.WellFormed()
    ensures BuildSeq3(df).Err? ==> PredictLabels(df, classify, labels) == Err(BuildSeq3(df).error)
    ensures BuildSeq3(df).Ok? && !NoEmptyRow(classify(BuildSeq3(df).value)) ==>
      PredictLabels(df, classify, labels) == Err(ArgmaxOfEmpty)
    ensures BuildSeq3(df).Ok? && NoEmptyRow(classify(BuildSeq3(df).value)) ==>
      var probs := classify(BuildSeq3(df).value);
      && ((exists n | 0 <= n < |probs| :: ArgMax(probs[n]) >= |labels|) ==>
            PredictLabels(df, classify, labels).Err? && PredictLabels(df, classify, labels).error.LabelIndexOutOfRange?)
      && ((forall n | 0 <= n < |probs| :: ArgMax(probs[n]) < |labels|) ==>
            (PredictLabels(df, classify, labels).Ok? <==> |probs| == |df.rows|))
  {
  }

  /**
   * A successful `predict_labels` keeps every row and every input column
   * with its cells, adds only `behaviour` and `confidence` (last, when they
   * were absent), and row `n` gets the label at the argmax of its
   * probability row and that row's maximum, which is the probability there.
   */
  lemma PredictLabelsOutput(df: Frame, classify: Tensor -> Matrix, labels: seq<string>, n: nat, g: Field)
    requires df.WellFormed() && n < |df.rows|
    requires PredictLabels(df, classify, labels).Ok?
    ensures BuildSeq3(df).Ok?
    ensures var probs := classify(BuildSeq3(df).value);
      && |probs| == |df.rows| && probs[n] != [] && ArgMax(probs[n]) < |labels|
      && RowMax(probs[n]) == probs[n][ArgMax(probs[n])]
    ensures var out := PredictLabels(df, classify, labels).value;
      && out.columns == df.columns
           + (if Named("behaviour") in df.columns then [] else [Named("behaviour")])
           + (if Named("confidence") in df.columns then [] else [Named("confidence")])
      && Named("behaviour") in out.columns && Named("confidence") in out.columns
    ensures var out := PredictLabels(df, classify, labels).value;
      var probs := classify(BuildSeq3(df).value);
      && Lookup(out, n, Named("behaviour")) == Some(Text(labels[ArgMax(probs[n])]))
      && Lookup(out, n, Named("confidence")) == Some(Num(RowMax(probs[n])))
    ensures g in df.columns && g != Named("behaviour") && g != Named("confidence") ==>
      Lookup(PredictLabels(df, classify, labels).value, n, g) == Lookup(df, n, g)
  {
    var probs := classify(BuildSeq3(df).value);
    var names := LabelsAt(Argmaxes(probs), labels).value;
    AddPredictionSpec(df, names, Maxima(probs), n, g);
    RowMaxAtArgMax(probs[n]);
  }
}
