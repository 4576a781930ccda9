# SheepApp accelerometer pipeline, modelled in Dafny

SheepApp labels sheep behaviour from tri-axial accelerometer recordings. This
project models its core in three stages:

1. **Flattening.** A stream of readings (X, Y, Z, time) is cut into windows of
   consecutive samples, and each window becomes one row with the columns
   `x_1 .. x_w`, `y_1 .. y_w`, `z_1 .. z_w` and a time column. There are two
   flatteners:
   - the chunked CSV flattener `flatten_file` resolves its four columns
     case-insensitively through `find_col`, drops rows with a missing value and
     never lets a window span two chunks. Each row takes its window's last time.
   - the in-memory flattener `flatten_xyz` selects the exact-case `X`, `Y`, `Z`
     and time columns (renaming a lower-case time column), truncates the frame
     to whole blocks and stamps each row with its block's first time.
2. **Prediction.** `build_seq_3` stacks a flattened frame into an N x 30 x 3
   tensor. `predict_labels` runs a classifier on it. It keeps the argmax of
   each probability row as a label and the row maximum as the confidence.
3. **Export.** `write_behaviour_to_influx` turns every row whose timestamp
   parses into one time-series point, with an optional `sheep_id` tag, and
   writes all the points in one batch.

Modules:

- `Tables` holds the shared data model:
  - cells are `Option<Value>`, where `None` is a missing value;
  - raw tables have string labels;
  - flattened frames have `Field` labels, where `Sample(X, j)` is the column
    `x_j`.
- `Windowing` defines the windowing both flatteners share, both header layouts,
  and how a frame of windows reads back by label.
- `ColumnLookup` models `find_col`.
- `ChunkedFlatten` models `flatten_file`.
- `BlockFlatten` models `flatten_xyz`.
- `Predict` models `build_seq_3` and `predict_labels`.
- `InfluxSink` models `write_behaviour_to_influx`. Its store client is a `Sink`
  object that records each batch it is handed.

The loops of the source are methods with loop invariants, each proved equal to
a specification function:
- `FindCol`, `FlattenChunk` and `FlattenChunks`;
- `FlattenBlocks`;
- `WriteBehaviour`.

`FlattenFile` and `FlattenXyz` make the checks that come before the loops and
then delegate to `FlattenChunks` and `FlattenBlocks`.

The properties are lemmas about those functions. The main ones:
- no overlap and no gap between windows;
- window `i` holds readings `i*w .. i*w + w - 1`;
- chunking loses nothing when the chunk size is a multiple of the window and no
  value is missing;
- the tensor holds the readings themselves whichever column order the frame
  uses;
- `predict_labels` keeps every input column;
- the write count equals the number of parsed timestamps.

Behaviours of the code worth knowing:
- The empty output of `flatten_file` always has the 30-sample header, whatever
  the window.
- A non-empty output's columns come interleaved (`x_1, y_1, z_1, x_2, ...`),
  because each row dictionary is filled one sample at a time.
- `flatten_xyz` reads no column until its block loop runs. A frame shorter than
  one block therefore yields an empty frame even when columns are missing.
- `predict_labels` never compares the classifier's class count with the number
  of labels. It fails only when an argmax is not a label index (`LabelsAt`).

## Model

| member | source | states |
|---|---|---|
| ColumnLookup.FindCol | data/flatten.py:7-13 | builds the lower-case index and tries target then fallbacks; its result is `FindColumn` |
| ColumnLookup.CaseIndexLast | data/flatten.py:8 | the case index holds exactly the lower-cased labels, each mapped to the LAST column with that lower-cased form |
| ColumnLookup.HitUsable | data/flatten.py:10-11 | a truthy index hit for a name is exactly a non-empty column equal to it up to case |
| ColumnLookup.FirstHitSpec | data/flatten.py:9-12 | the candidate scan returns nothing iff no candidate hits, else the label of the first candidate that hits |
| ColumnLookup.FindColumnFound | data/flatten.py:7-12 | when candidate `k` is the first to match, `find_col` returns the non-empty last column equal to it up to case |
| ColumnLookup.FindColumnMissing | data/flatten.py:13 | `find_col` fails, naming the target and the available columns, iff no candidate matches |
| ColumnLookup.CaseIndex | data/flatten.py:8 | every key maps to a column whose lower-cased form is that key, and every column's lower-cased form is a key |
| ColumnLookup.FirstHit | data/flatten.py:9-12 | a returned label is the index entry of one of the candidates that hits |
| ColumnLookup.FindColumn | data/flatten.py:7-13 | a found label is a non-empty column equal up to case to the target or to one of its fallbacks; a failure names the target and the available columns |
| ColumnLookup.FindColumnInColumns | data/flatten.py:8-12 | a returned label is always one of the table's columns |
| ChunkedFlatten.ResolveIndex | data/flatten.py:24-27 | the resolved position holds exactly the label `find_col` returns, and errors pass through |
| ChunkedFlatten.ResolveColumns | data/flatten.py:24-27 | resolves X, Y, Z, then time, each with its own fallbacks; the first failure is the error |
| ChunkedFlatten.DefaultConfiguration | data/flatten.py:15-17 | the default window of 30 and chunk size of 30000 pass both checks made before reading |
| ChunkedFlatten.ResolveAxes | data/flatten.py:24-27 | succeeds iff all four `find_col` calls succeed, each position then holding the label `find_col` returns; otherwise the first failing target of X, Y, Z, time, with the columns |
| ChunkedFlatten.Chunks | data/flatten.py:22 | at least one chunk is read and the first has at most `size` rows; a header-only file gives a single empty chunk |
| ChunkedFlatten.ChunksPartition | data/flatten.py:22 | the chunks concatenate back to the input in order, all but the last have exactly `size` rows, and at least one chunk is read |
| ChunkedFlatten.ValidReadings | data/flatten.py:30 | the kept readings are at most the chunk's rows and all complete |
| ChunkedFlatten.ValidReadingsAppend | data/flatten.py:30 | dropping incomplete rows distributes over concatenation, so order is kept |
| ChunkedFlatten.ValidReadingsOne | data/flatten.py:30 | a row is kept exactly when its four selected cells are present |
| ChunkedFlatten.ValidReadingsNoNulls | data/flatten.py:30 | with no missing value nothing is dropped |
| ChunkedFlatten.AllRowsAppend | data/flatten.py:22-61 | output rows of a chunk sequence are the chunks' rows concatenated in chunk order |
| ChunkedFlatten.ChunkRows | data/flatten.py:30-61 | a chunk gives floor(complete readings / window) rows, and none when it has fewer complete readings than the window |
| ChunkedFlatten.AllRows | data/flatten.py:22-61 | the row count is the sum over chunks of floor(complete rows / window) |
| ChunkedFlatten.AllRowsAt | data/flatten.py:43-61 | window `i` of chunk `k` sits after the earlier chunks' rows, holds that chunk's complete readings `i*w .. i*w+w-1` and the time of the last of them |
| ChunkedFlatten.ChunkingWithoutNulls | data/flatten.py:15-61 | with a chunk size that is a multiple of the window and no missing value, the output equals windowing the whole input at once |
| ChunkedFlatten.WindowsPresent | data/flatten.py:30-61 | windows of complete readings have every sample and timestamp present |
| ChunkedFlatten.AllRowsPresent | data/flatten.py:30-61 | no output row has a missing sample or time |
| ChunkedFlatten.Output | data/flatten.py:63-72 | the written frame is well formed and has one row per window |
| ChunkedFlatten.OutputHeader | data/flatten.py:63-72 | without rows the header is x_1..x_30, y_1..y_30, z_1..z_30, Time (91 columns) for any window; with rows it has 3w+1 columns and one row per window |
| ChunkedFlatten.FlattenChunk | data/flatten.py:43-61 | the row-building loops produce exactly the windows of the chunk's complete readings, stamped with the last sample |
| ChunkedFlatten.FlattenChunks | data/flatten.py:22-61 | a column resolution failure or a negative window fails; otherwise the result is all chunks' windows in order |
| ChunkedFlatten.FlattenFile | data/flatten.py:15-72 | zero window, chunk size not a multiple, non-positive chunk size and column errors are reported in that order; otherwise the output frame of all windows |
| Windowing.Windows | data/flatten.py:43-60 | no contract of its own: the consecutive w-reading windows, one row each; `WindowCount`, `WindowSlice`, `WindowAt` and `NoOverlapNoGap` state what it holds |
| Windowing.MakeRow | data/flatten.py:53-60 | no contract of its own: one flattened row from a window and the stamp; `MakeRowCell` and `RowTime` state its cells and its time |
| Windowing.WindowCount | data/flatten.py:43-53 | there are exactly floor(n / w) windows |
| Windowing.WindowFrom | data/flatten.py:47-58 | the window starting at reading `i*w` (counted window by window) is window `i` |
| Windowing.OffsetProduct | data/flatten.py:43-50 | counting `i` windows of `w` readings reaches reading `i*w` |
| Windowing.WindowSlice | data/flatten.py:43-58 | window `i` is made of readings `i*w .. i*w+w-1`, all inside the input |
| Windowing.WindowAt | data/flatten.py:53-60 | sample `j` of window `i` on every axis is reading `i*w + j`; its time is reading `i*w+w-1` (last sample) or `i*w` (first sample) |
| Windowing.NoOverlapNoGap | data/flatten.py:43-58 | the windows' samples concatenated are exactly the first floor(n/w)*w readings: no overlap, no gap |
| Windowing.JoinedPrefix | data/flatten.py:43-58 | the concatenated samples are the first (number of windows) * w readings |
| Windowing.TruncationKeepsWindows | pipeline/flatten.py:11-12 | truncating to whole blocks first leaves the windows unchanged |
| Windowing.WindowsAppend | data/flatten.py:22-43 | readings whose count is a multiple of the window are windowed independently of what follows |
| Windowing.Interleave | data/flatten.py:55-58 | the interleaved label run has three labels per sample |
| Windowing.InterleaveAt | data/flatten.py:55-58 | triple `k` of the interleaved run is label `k` of x, y and z |
| Windowing.InterleaveFrom | data/flatten.py:55-58 | every interleaved label comes from one of the three runs |
| Windowing.BlockedPosition | pipeline/flatten.py:17-19 | in the blocked header `a_j` sits after the earlier axes' w labels, at position j-1 of its block |
| Windowing.InterleavedPosition | data/flatten.py:55-58 | in the interleaved header `a_j` is slot `a` of triple `j` |
| Windowing.HeaderSamples | data/flatten.py:54-60 | the header has 3w+1 labels and every one before the last is a sample 1..w |
| Windowing.HeaderFields | data/flatten.py:54-61 | a header holds the time column and samples 1..w of every axis and nothing else |
| Windowing.ToFrame | data/flatten.py:72 | a frame built from flattened rows has one cell per column in every row |
| Windowing.MakeRowCell | data/flatten.py:55-58 | column a_{j+1} of a flattened window is axis `a` of its reading `j` |
| Windowing.ToFrameLookup | data/flatten.py:72 | looking a header label up in the frame gives that row's cell |
| Windowing.RowCell | data/flatten.py:53-58 | column a_{j+1} of row `k` is axis `a` of reading `base + j` when window `k` starts at `base` |
| Windowing.FrameOfWindows | data/flatten.py:53-58 | reading the frame back by label: column a_{j+1} of row `k` is axis `a` of reading `k*w + j`, and there are floor(n/w) rows |
| Windowing.RowTime | data/flatten.py:60 | the time column of row `k` is the stamp of the window that starts at `base` |
| Windowing.FrameTimeOfWindows | pipeline/flatten.py:20 | the time column of row `k` is the time of reading `k*w` (first sample) or `k*w+w-1` (last sample) |
| BlockFlatten.Keep | pipeline/flatten.py:6 | the kept names are exactly the wanted names that are columns |
| BlockFlatten.Narrow | pipeline/flatten.py:6-9 | selection and renaming keep every row |
| BlockFlatten.Readings | pipeline/flatten.py:16-20 | one reading per row of the table |
| BlockFlatten.MissingKey | pipeline/flatten.py:17-20 | nothing is missing iff X, Y, Z and the time column are all columns; otherwise an absent one of them, X before Y before the others |
| BlockFlatten.FlattenXyz | pipeline/flatten.py:4-22 | zero block length divides by zero; negative length or too few rows give an empty frame; a missing X, Y, Z or time column fails, the first missing one named; otherwise the blocked frame of the windows stamped with the first sample |
| BlockFlatten.FlattenBlocks | pipeline/flatten.py:11-22 | the block loop over the truncated frame produces exactly the windows of its readings, or the first missing key |
| BlockFlatten.BlockStep | pipeline/flatten.py:15-21 | the block starting at row `k*seq_len` of the truncated frame lies inside the frame and flattens to window `k` |
| BlockFlatten.BlockReadings | pipeline/flatten.py:16 | the readings of a block are the block of the readings |
| BlockFlatten.IndexOfRelabelled | pipeline/flatten.py:8-9 | renaming one label keeps the position of its first occurrence |
| BlockFlatten.NarrowAxisColumn | pipeline/flatten.py:6-7 | X, Y and Z are taken only under their exact names |
| BlockFlatten.NarrowAxis | pipeline/flatten.py:6-7 | an axis column of the narrowed frame holds the input's cells of that column |
| BlockFlatten.NarrowTimeColumn | pipeline/flatten.py:6-9 | the narrowed frame has the time column iff the input has it or its lower-case form |
| BlockFlatten.NarrowTime | pipeline/flatten.py:6-9 | the time column holds the cells of `time_col`, or of its lower-case form when `time_col` is absent |
| BlockFlatten.FlattenXyzShape | pipeline/flatten.py:11-21 | when the narrowed frame has X, Y, Z and the time column, the block frame has floor(len / seq_len) rows and the input has X, Y, Z and a time source |
| BlockFlatten.FlattenXyzSample | pipeline/flatten.py:15-19 | column a_{j+1} of row `k` is input row `k*seq_len + j` of column X, Y or Z |
| BlockFlatten.FlattenXyzTime | pipeline/flatten.py:20 | the time of row `k` is input row `k*seq_len` (the block's first) of the time source |
| Predict.DefaultsMatchTensor | piplene/predict.py:11-17 | both flatteners' default window lengths are the 30 steps the tensor takes |
| Predict.AxisFields | piplene/predict.py:13-15 | the selected group of one axis is a_1 .. a_30 in order |
| Predict.Absent | piplene/predict.py:13-15 | the reported labels are exactly the group's labels that are not columns |
| Predict.MissingGroup | piplene/predict.py:12-16 | the reported labels are non-empty and none of them is a column |
| Predict.MissingGroupSpec | piplene/predict.py:12-16 | a group is reported missing iff some of the 90 axis columns is absent, and what is reported are absent labels of one axis |
| Predict.Stack | piplene/predict.py:12-16 | the tensor has one N x 30 entry per row, step `j` being `[x_{j+1}, y_{j+1}, z_{j+1}]` |
| Predict.BuildSeq3 | piplene/predict.py:11-17 | succeeds iff all 90 axis columns exist, failing with the first incomplete group's absent labels; on success it is the stacked tensor |
| Predict.WindowFrameColumns | piplene/predict.py:11-17 | any frame of 30-sample windows has every column the tensor builder selects |
| Predict.TensorOfWindows | piplene/predict.py:11-17 | the tensor of a frame of 30-sample windows has, at window `n` step `j`, the x, y, z of reading `n*30 + j`, for either column order |
| Predict.TensorStep | piplene/predict.py:11-17 | the same for a window known to start at reading `base` |
| Predict.StepOfReading | piplene/predict.py:12-16 | a step whose three cells come from one reading is that reading's x, y, z |
| Predict.EmptyFlattenTensor | piplene/predict.py:11-17 | the empty chunked-flattener output still builds an (empty) tensor |
| Predict.ArgMax | piplene/predict.py:23 | a position of the row's largest value, the lowest one on ties |
| Predict.RowMax | piplene/predict.py:24 | a value of the row that no value exceeds |
| Predict.RowMaxAtArgMax | piplene/predict.py:23-24 | the confidence is the probability at the chosen class |
| Predict.LabelsAt | piplene/predict.py:26 | succeeds iff every index is in range, mapping each to its label; otherwise it names an out-of-range index with every earlier one in range |
| Predict.SetColumn | piplene/predict.py:26-27 | assigning a column of the right length leaves a well-formed frame |
| Predict.SetColumnSpec | piplene/predict.py:26-27 | assignment replaces an existing column or appends a new one last, sets its cells and leaves every other column and row unchanged |
| Predict.IndexOfPrefix | piplene/predict.py:26-27 | appending columns keeps the position of an existing label and puts a new one after the old ones |
| Predict.Argmaxes | piplene/predict.py:23 | one argmax per probability row |
| Predict.Maxima | piplene/predict.py:24 | one maximum per probability row |
| Predict.AddPrediction | piplene/predict.py:25-27 | adding the two columns to a copy keeps the row count |
| Predict.AddPredictionSpec | piplene/predict.py:25-28 | the copy keeps every column and its cells, adds only behaviour and confidence (last, when absent) and holds the given label and confidence per row |
| Predict.PredictLabels | piplene/predict.py:19-28 | a successful prediction is a well-formed frame with the input's row count |
| Predict.PredictLabelsErrors | piplene/predict.py:19-28 | it fails exactly when the tensor cannot be built, a probability row is empty, an argmax is no label index or the classifier's row count differs, in that order |
| Predict.PredictLabelsOutput | piplene/predict.py:19-28 | on success row `n` gets the label at the argmax of its probability row and that row's maximum, and every other input column is unchanged |
| InfluxSink.Sink.constructor | piplene/predict.py:41-42 | a fresh client has written nothing |
| InfluxSink.Sink.Write | piplene/predict.py:59 | a write appends exactly one batch |
| InfluxSink.Times | piplene/predict.py:36 | one parsed-or-missing time per row |
| InfluxSink.Valid | piplene/predict.py:37 | the kept rows are, in increasing order, exactly the rows whose time parsed |
| InfluxSink.Truthy | piplene/predict.py:56 | a cell is falsy exactly when it is numeric zero or the empty string |
| InfluxSink.MakePoint | piplene/predict.py:44-58 | the point carries the measurement, the parsed time and row `n`'s behaviour and confidence, and is tagged with the row's tag value exactly when the tag column exists and that value is truthy |
| InfluxSink.PointsUpTo | piplene/predict.py:44-58 | at most one point per row, and none when no time parsed among those rows |
| InfluxSink.WriteBehaviour | piplene/predict.py:30-60 | a missing Time column fails; no parsed time returns 0 without writing; a missing behaviour or confidence column fails; otherwise exactly one batch of the points is written and its length returned |
| InfluxSink.PointsCount | piplene/predict.py:44-58 | one point per row whose time parsed |
| InfluxSink.PointsOfValidRows | piplene/predict.py:44-58 | point `k` comes from the k-th parsed row with its time, behaviour and confidence, and is tagged exactly when the tag column exists and its value is truthy |
| InfluxSink.ValidNonEmpty | piplene/predict.py:37-39 | some row is kept iff some time parsed |
| InfluxSink.WriteCount | piplene/predict.py:37-60 | the returned count is the number of rows whose time parsed, which is positive exactly when anything is written |

## Left out

- Reading and writing CSV files, the argument parsing of `main` and the printed messages are not modelled. Input tables are values, and the output is the frame that would be written.
- ColumnLookup.Lower: lower-cases ASCII letters only. Python's Unicode case mapping is not modelled.
- Predict.BuildSeq3: does not model the conversion to 32-bit floats. Cells are carried as they are, so a text cell that fails to convert and single-precision rounding are not captured.
- Predict.PredictLabels: the model file and its loading are not modelled. The classifier is a function parameter from tensors to probability matrices. The argmax of a matrix with zero columns is reported as an error, without distinguishing numpy's exact failure. NaN probabilities are not modelled.
- InfluxSink.WriteBehaviour: the timestamp parser is a function parameter. Time zones and nanosecond precision are not modelled. The `str` and `float` conversions of the behaviour and confidence fields are not modelled: a confidence that `float` rejects does not fail here. The client's URL, organisation, bucket and token are not modelled. The sink records batches instead of sending them. The model parses each row's time on its own; `pd.to_datetime` parses the whole column and may infer one format from the first value it can read, so a time that parses alone may fail beside its neighbours.
- InfluxSink.Truthy: a missing cell counts as truthy, as NaN does in Python. A Python `None` in an object column, which is falsy, is not distinguished from NaN.
- Tables.IndexOf: a label lookup uses the first column with that label. With duplicate labels pandas returns several columns instead. This arises in `flatten_xyz` when the time column's name is already lower-case and appears twice in the selection.
- ChunkedFlatten.FlattenChunks: a negative window is reported as one error. numpy's exact reshape failure is not modelled.
- Floating-point arithmetic is not modelled: values are mathematical reals.
