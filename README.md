# timeflip2 transformers in Dafny

timeflip2 turns time-tracking exports into a wide "task × week" table: one row per task,
one column per week, and a duration in hours in each cell. This project models its two
transformers and proves what they promise.

- **`SpreadsheetTransformer.transform`** (`spreadsheet.dfy`) checks that the columns Task,
  Week and Value are present. It then pivots the (Task, Week, Value) records into one row per
  distinct task and one column per distinct week, fills the missing cells with 0 and labels
  the columns `Week <week>`.
- **`TimeflipTransformer.transform`** (`timeflip_transformer.dfy`) first tries the same pivot
  on the file read as a comma-separated table. When that read fails, a column is missing or
  the pivot raises, it falls back to the semicolon-separated TimeFlip2 export (the
  week-block path):
  - `_parse_weeks` (`TimeflipRows.ParseWeeks`) cuts the rows into week blocks at the rows
    whose first cell starts with `Week #`;
  - `_is_task_row` and `_clean_task_name` pick out the task rows and their stripped names;
  - an insertion-ordered dictionary (`TimeflipAccumulator.TaskDurations`) collects each
    task's durations in order of occurrence;
  - the lists are right-padded with `0.0` to the longest length, and the columns are
    labelled `Week 1` .. `Week n`;
  - when either path finds nothing, the result is the empty table with columns
    `Task` and `Week 1`.

Reading files is outside the model, so the reads are inputs:
- `TimeflipTransformer.Transform` takes the comma read as `Option<Sheet>` (`None` when
  `pd.read_csv` raises). It takes the semicolon read as `Option<Table>`, again `None` when the
  read raises. A `Table` is the read's column count `width` (at least 1: the number of fields
  of the first line) and its rows of optional cells.
- Within the width, a cell past the end of a short row reads as missing, as pandas pads
  short rows with NaN. A lookup of column 1 or 2 at or past the width raises `KeyError` in
  `_is_task_row`. So a one-column read fails on any row inside a week block, and a
  two-column read fails on such a row whose name cell is present.
- `transform` re-raises these errors. The model returns them as `Failure(ReadFailed)` and
  `Failure(KeyError)` of the datatype `TimeflipError`.
- `float(row[2])` is a parameter `parse: string -> Option<real>`. `None` is the
  `ValueError` branch that records `0.0`.

The imperative parts of the source are methods with loop invariants, each proved equal to
a specification function:
- the loop of `_parse_weeks` (`ParseWeeks` == `Segment`);
- the dictionary-building loops (`RecordEntry`, `RecordRow`, `RecordBlock`, `CollectTasks`
  against `FirstSeen` and `Grouped`);
- the padding `while` loop (`TaskDurations.PadList`, `TaskDurations.PadTo` against
  `PadRight` and `PadLists`);
- the whole week-block path (`ComplexTransform` == `ComplexResult`, which is the error or
  `BlockTable`).

The lemmas in `timeflip_properties.dfy` state what the table means in terms of the
input rows, and when the week-block path raises. `examples.dfy` states the model's result
on the inputs of the repository's tests.

The code and the repository's tests disagree in three places. The model follows the code:
- the tests expect ISO-date column labels for the export (`2024-12-29`, `2025-01-05`), but
  the code labels the columns `Week 1`, `Week 2` (`Examples.ExportResult`);
- the tests expect a `Total` row, but nothing in the code adds one;
- for the header-only file the tests expect the columns `['Week 1']`, but the code returns
  `['Task', 'Week 1']` (`Examples.HeaderOnlyTransform`).

Several features a TimeFlip2 converter might be expected to have are not in the code:
date labels, reconciling the declared total with the per-day columns, filtering
`Subtotal`-style summary rows, skipping the header row after a marker, and aligning values
to their week. The model has none of them. In the code, a task's values are appended in
the order they occur, so a task missing from an early week has its later values shifted
left. `TimeflipProperties.AlignedTable` states the condition under which the columns do
line up with the weeks.

## Model

| member | source | states |
|---|---|---|
| `SpreadsheetTransformer.Transform` | src/spreadsheet_transformer.py:26-42 | fails with `MissingColumns` exactly when one of Task, Week, Value is absent from the header, naming exactly the absent ones; otherwise it is the pivot of the records |
| `SpreadsheetTransformer.ExtraColumnsIgnored` | src/spreadsheet_transformer.py:27-28 | two sheets with the same records that both contain the required columns transform alike: extra columns play no part |
| `SpreadsheetTransformer.Pivot` | src/spreadsheet_transformer.py:33-40 | fails (pandas' duplicate-entry error) exactly when two records share a task and a week; otherwise a well-formed table |
| `SpreadsheetTransformer.TaskKeys` | src/spreadsheet_transformer.py:33-34 | the row labels: strictly sorted and containing exactly the Task values of the records |
| `SpreadsheetTransformer.WeekKeys` | src/spreadsheet_transformer.py:33-35 | the week columns: strictly increasing and containing exactly the Week values of the records |
| `SpreadsheetTransformer.Lookup` | src/spreadsheet_transformer.py:33-37 | absent exactly when no record has that task and week; otherwise the Value of such a record |
| `SpreadsheetTransformer.PivotRows` | src/spreadsheet_transformer.py:33-37 | one row per distinct Task value, in sorted order |
| `SpreadsheetTransformer.PivotColumns` | src/spreadsheet_transformer.py:33-40 | one column per distinct Week value, labelled `Week <week>`, in increasing order, pairwise distinct; `Week <w>` is a column exactly when some record has week `w` |
| `SpreadsheetTransformer.PivotCellAt` | src/spreadsheet_transformer.py:33-37 | the cell at task `t` and `Week <w>` is the Value recorded for (t, w), or 0 |
| `SpreadsheetTransformer.PivotPresentPairs` | src/spreadsheet_transformer.py:33-36 | every record's Value is in the cell of its task and week |
| `SpreadsheetTransformer.PivotAbsentPairs` | src/spreadsheet_transformer.py:37 | a task and a week that both occur but never together get the fill value 0 |
| `SpreadsheetTransformer.PivotOfNothing` | src/spreadsheet_transformer.py:33-37 | no records pivot to a table with no rows and no columns |
| `SpreadsheetTransformer.PivotEmptyIffNoRecords` | src/timeflip_transformer.py:78-80 | the pivot is empty (pandas' `empty`) exactly when there are no records |
| `Ordering.SortedDistinct` | src/spreadsheet_transformer.py:33-35 | the sorted distinct labels pandas gives the pivot's axes: strictly sorted, same elements as the input |
| `Ordering.SortedUnique` | src/spreadsheet_transformer.py:33-35 | two strictly sorted sequences with the same elements are equal, so the axis order is determined |
| `Ordering.StringLessIsStrictTotalOrder` | src/spreadsheet_transformer.py:33-34 | the code-point order on task names is a strict total order |
| `Ordering.IntLessIsStrictTotalOrder` | src/spreadsheet_transformer.py:35 | the numeric order on weeks is a strict total order |
| `Text.Trim` | src/timeflip_transformer.py:56 | `strip()`: empty exactly when the string is all whitespace, otherwise begins and ends with a non-space, and is the input with whitespace removed from both ends only |
| `Text.TrimIdempotent` | src/timeflip_transformer.py:56 | stripping a stripped string changes nothing |
| `Text.TrimOfStripped` | src/timeflip_transformer.py:63-64 | a string with non-space ends is its own stripped form |
| `Text.DecimalString` | src/spreadsheet_transformer.py:40 | `str(n)` starts with `-` exactly for negative `n` |
| `Text.DigitsRoundTrip` | src/spreadsheet_transformer.py:40 | reading back the digits of `str(n)` gives `n` |
| `Text.DecimalStringInjective` | src/spreadsheet_transformer.py:40 | distinct integers render as distinct strings |
| `Frames.WeekLabels` | src/timeflip_transformer.py:122 | `n` labels, the i-th being `Week i+1` |
| `Frames.WeekLabelInjective` | src/spreadsheet_transformer.py:40 | `Week <a>` and `Week <b>` are equal only when `a == b` |
| `Frames.WeekLabelsDistinct` | src/timeflip_transformer.py:122 | the labels `Week 1` .. `Week n` are pairwise distinct |
| `TimeflipRows.IsMarker` | src/timeflip_transformer.py:41 | a marker is exactly a row whose first cell is present and has `Week #` as a prefix |
| `TimeflipRows.StepBlocks` | src/timeflip_transformer.py:40-46 | one step of the loop (`Step`): a marker adds one empty block after the others; any other row is appended to the open (last) block, or dropped when none is open; the blocks before the open one are unchanged |
| `TimeflipRows.Segment` | src/timeflip_transformer.py:35-51 | the blocks `_parse_weeks` returns; no block contains a marker row |
| `TimeflipRows.AllBlocksHoldNoMarkers` | src/timeflip_transformer.py:40-46 | every block of the scan, the open one included, is free of markers |
| `TimeflipRows.ParseWeeks` | src/timeflip_transformer.py:35-51 | the loop's blocks equal `Segment(rows)`, the fold of one step per row |
| `TimeflipRows.OpenIffMarkerSeen` | src/timeflip_transformer.py:38-46 | a block is open exactly when some marker has been seen |
| `TimeflipRows.SegmentWithoutMarkers` | src/timeflip_transformer.py:38-51 | without a marker no block is opened and the result is empty |
| `TimeflipRows.ScanAfterMarker` | src/timeflip_transformer.py:41-46 | the rows after a marker up to the next marker form the block that marker opened; earlier blocks are closed as they were, an empty one included |
| `TimeflipRows.BlocksCount` | src/timeflip_transformer.py:40-46 | the closed blocks plus the open one number exactly the markers; the open block is empty exactly when the last row is a marker |
| `TimeflipRows.SegmentCount` | src/timeflip_transformer.py:40-51 | the number of blocks is the number of markers, less one when the input ends in a marker (a trailing empty block is dropped, earlier empty ones kept) |
| `TimeflipRows.SegmentRows` | src/timeflip_transformer.py:40-51 | the blocks, concatenated, are exactly the non-marker rows after the first marker, in input order |
| `TimeflipRows.CleanTaskName` | src/timeflip_transformer.py:53-56 | the name cell with surrounding whitespace removed (empty exactly when the cell is all whitespace); `nan` for a missing cell |
| `TimeflipRows.TaskRowCells` | src/timeflip_transformer.py:58-65 | a task row (`IsTaskRow`) has name and time cells, so at least three cells, and its cleaned name is never `Task` |
| `TimeflipRows.MarkerIsNotTaskRow` | src/timeflip_transformer.py:58-65 | a `Week #` marker row is never a task row |
| `TimeflipRows.HeaderIsNotTaskRow` | src/timeflip_transformer.py:58-65 | the `Tag;Task;Time;...` header row is never a task row |
| `TimeflipAccumulator.HoursOf` | src/timeflip_transformer.py:102-107 | the parsed time when `float` succeeds, `0.0` when it fails |
| `TimeflipAccumulator.RowEntryOf` | src/timeflip_transformer.py:97-107 | a row gives at most one entry, exactly when it is a task row with a non-empty name; the entry's name is stripped, non-empty and never `Task`, and its duration is `Hours` of the row |
| `TimeflipAccumulator.FirstSeen` | src/timeflip_transformer.py:92-101 | the dictionary's keys: distinct, and containing exactly the task names of the entries |
| `TimeflipAccumulator.Grouped` | src/timeflip_transformer.py:92-107 | the dictionary has a list for exactly the first-seen tasks |
| `TimeflipAccumulator.ValuesForUnseen` | src/timeflip_transformer.py:100-101 | a task never seen has no durations |
| `TimeflipAccumulator.GroupedSnoc` | src/timeflip_transformer.py:100-107 | recording an entry appends its duration to its task's list (created if new) and changes no other list |
| `TimeflipAccumulator.LongestList` | src/timeflip_transformer.py:115 | `max(len(times) ...)`: no list is longer and some list has that length |
| `TimeflipAccumulator.PadRight` | src/timeflip_transformer.py:117-118 | a list padded to `n`: its length is the larger of the two, the original entries come first and only `0.0` follows |
| `TimeflipAccumulator.PadLists` | src/timeflip_transformer.py:116-118 | same keys, every list padded |
| `TimeflipAccumulator.ListsOf` | src/timeflip_transformer.py:121 | `from_dict(orient='index')`: one row per key, in key order |
| `TimeflipAccumulator.TaskDurations.constructor` | src/timeflip_transformer.py:92 | `all_tasks = {}`: no keys, no lists |
| `TimeflipAccumulator.TaskDurations.AddTask` | src/timeflip_transformer.py:100-101 | a new key goes last in insertion order with an empty list |
| `TimeflipAccumulator.TaskDurations.Append` | src/timeflip_transformer.py:102-107 | the value is appended to that key's list only; the key order is unchanged |
| `TimeflipAccumulator.TaskDurations.Longest` | src/timeflip_transformer.py:115 | the length of the longest list |
| `TimeflipAccumulator.TaskDurations.PadList` | src/timeflip_transformer.py:117-118 | the `while` loop pads one list to `PadRight` of it and touches nothing else |
| `TimeflipAccumulator.TaskDurations.PadTo` | src/timeflip_transformer.py:116-118 | every list becomes its `PadRight` and the key order is kept |
| `TimeflipTransformer.BlockTable` | src/timeflip_transformer.py:89-125 | the table built from the week blocks when no lookup raises is well formed |
| `TimeflipTransformer.ComplexResult` | src/timeflip_transformer.py:86-129 | the week-block path fails exactly when the read fails (`ReadFailed`) or a row of some week block makes `_is_task_row` look up a missing column (`KeyError`); otherwise it is the well-formed `BlockTable` of the rows |
| `TimeflipTransformer.RecordStep` | src/timeflip_transformer.py:100-107 | how one entry changes the keys and the lists |
| `TimeflipTransformer.RecordEntry` | src/timeflip_transformer.py:100-107 | after one append, the dictionary is `FirstSeen`/`Grouped` of the entries so far |
| `TimeflipTransformer.RecordRow` | src/timeflip_transformer.py:96-107 | stops (returns false) exactly when `_is_task_row` would raise on the row; otherwise a task row with a non-empty name adds its entry and any other row changes nothing |
| `TimeflipTransformer.RecordBlock` | src/timeflip_transformer.py:96-107 | the inner loop stops exactly when some row of the block raises; otherwise it adds the entries of the block, in row order |
| `TimeflipTransformer.CollectTasks` | src/timeflip_transformer.py:92-107 | the outer loop stops exactly when some row of some block raises; otherwise it builds, from an empty dictionary, the keys and lists of all entries of all blocks |
| `TimeflipTransformer.ComplexTransform` | src/timeflip_transformer.py:86-129 | the method computes `ComplexResult`, errors included |
| `TimeflipTransformer.SimpleResult` | src/timeflip_transformer.py:73-83 | the simple path answers exactly when the comma read succeeds, has Task, Week and Value, and the pivot does not raise; it is the pivot, or the empty result when the pivot is empty |
| `TimeflipTransformer.TransformResult` | src/timeflip_transformer.py:67-129 | `transform` raises exactly when the simple path gives no answer and the semicolon read fails or a row inside a week block makes a lookup raise |
| `TimeflipTransformer.Transform` | src/timeflip_transformer.py:73-125 | the method computes `TransformResult`: the simple result if any, otherwise the week-block result, errors included |
| `TimeflipProperties.EntriesOfInput` | src/timeflip_transformer.py:89-107 | the entries collected are those of the rows inside week blocks |
| `TimeflipProperties.OneEntryPerRow` | src/timeflip_transformer.py:97-107 | a task's list has one duration per qualifying row bearing its name, whether or not the time parses |
| `TimeflipProperties.SeenIffValues` | src/timeflip_transformer.py:100-104 | a task is a key exactly when it has a duration |
| `TimeflipProperties.CountWitness` | src/timeflip_transformer.py:97-99 | a counted task has a qualifying row with that name |
| `TimeflipProperties.CountPositive` | src/timeflip_transformer.py:97-99 | a qualifying row counts towards its name |
| `TimeflipProperties.ResultKeys` | src/timeflip_transformer.py:97-101 | the row labels are distinct, are exactly the names of qualifying rows inside blocks, and are non-empty, stripped and never `Task` |
| `TimeflipProperties.ResultEmpty` | src/timeflip_transformer.py:109-112 | the table has no rows exactly when no row inside a block qualifies, and it is then the empty result |
| `TimeflipProperties.FirstSeenOrdered` | src/timeflip_transformer.py:100-101 | the keys are listed in the order their tasks first occur |
| `TimeflipProperties.ResultKeyOrder` | src/timeflip_transformer.py:92-101 | the row labels follow the first occurrence of their tasks in the input |
| `TimeflipProperties.ResultTable` | src/timeflip_transformer.py:114-122 | with rows present: `n >= 1` columns `Week 1` .. `Week n`; each row is its task's durations padded with zeros to `n`, where `n` is the longest list |
| `TimeflipProperties.PaddingKeepsEntries` | src/timeflip_transformer.py:116-118 | padding keeps the durations in place, appends only zeros and leaves a full-length list as it is |
| `TimeflipProperties.ValuesForAppend` | src/timeflip_transformer.py:94-107 | a task's durations over two runs of entries are those of the first run followed by those of the second |
| `TimeflipProperties.AlignedValues` | src/timeflip_transformer.py:94-107 | when a task has exactly one row in every block, its k-th duration comes from block k |
| `TimeflipProperties.WeekLabelIndex` | src/timeflip_transformer.py:122 | `Week k+1` is column k |
| `TimeflipProperties.AlignedTable` | src/timeflip_transformer.py:94-122 | when every task occurs once in every block, there is one column per block and `Week k+1` holds each task's duration from block k |
| `TransformProperties.RowsRaiseAppend` | src/timeflip_transformer.py:96-97 | a run of rows raises exactly when one of its two parts does |
| `TransformProperties.FlattenRaises` | src/timeflip_transformer.py:94-97 | some block has a failing row exactly when the blocks' rows, concatenated, do |
| `TransformProperties.RaisesIffRowInBlockFails` | src/timeflip_transformer.py:58-62 | after a successful read, the week-block path fails exactly when some row inside a week block makes a lookup fail, and the error is then `KeyError`; rows before the first marker and the markers never raise |
| `TransformProperties.WideReadSucceeds` | src/timeflip_transformer.py:60-62 | a read with at least three columns never raises: the result is `BlockTable` |
| `TransformProperties.NarrowReadRaises` | src/timeflip_transformer.py:60-62 | a one-column read raises exactly when some week block has a row; a two-column read raises exactly when some row inside a block has a name cell |
| `TransformProperties.TransformEmptyConvention` | src/timeflip_transformer.py:73-112 | whichever path is taken, the table is well formed and is empty only when it is the fixed `Task`, `Week 1` table |
| `Examples.ExportBlocks` | src/test_timeflip_transformer.py:58-71 | the two-week export gives two blocks, each a header and the two task rows of its week |
| `Examples.ExportResult` | src/test_timeflip_transformer.py:73-91 | the export becomes rows `Code`, `Slack` and columns `Week 1`, `Week 2` holding 7.75, 5.89 / 6.39, 15.45 |
| `Examples.ExportTransform` | src/test_timeflip_transformer.py:73-91 | with a comma read lacking the required columns and the nine-column semicolon read, `transform` returns that same table |
| `Examples.OneColumnFile` | src/timeflip_transformer.py:58-62 | a file `Week #1` / `foo` has a one-column semicolon read, and `transform` raises `KeyError` on it |
| `Examples.SimplePivot` | src/test_spreadsheet_transformer.py:29-44 | the simple file pivots to `Week 1`, `Week 2` by `Task A`, `Task B` with 10, 15 / 5, 8 |
| `Examples.SimpleTransform` | src/test_timeflip_transformer.py:93-111 | `transform` takes the simple path on that file and returns the same table |
| `Examples.HeaderOnlyTransform` | src/test_timeflip_transformer.py:113-126 | the header-only file gives the empty result with columns `Task`, `Week 1` |
| `Examples.MissingWeekColumn` | src/spreadsheet_transformer.py:27-30 | without a Week column the spreadsheet transformer reports exactly `{Week}` as missing |

## Left out

- The file-existence checks of both constructors and their `FileNotFoundError` are left out, because they are file-system I/O.
- `pd.read_csv` is left out: tokenising, delimiter handling, skipping blank lines, type inference and NA strings are library behaviour. The reads are inputs of `Transform`.
- `save`, logging and `src/main.py` are left out, because they are output, diagnostics and command-line glue.
- `float(row[2])` is the parameter `parse`. IEEE rounding, `nan` and `inf` are not modelled; cell values are exact reals.
- Week values are modelled as integers, ordered numerically and rendered as `str(int)`. Float or string Week columns, and their ordering and rendering, are left out, and so are NaN Value cells.
- A Task cell of the comma read is always a string (`Triple.task`). In pandas an empty Task field reads as NaN, and the pivot then has a NaN row label. That case is left out.
- The comma read of the simple path can raise on other errors (mixed types, a malformed file). The model covers only a failed read (`None`), a missing column and a duplicate (Task, Week) pair.
- `index.name = 'Task'` and pandas' dtypes are not part of `Frame`.
- The outer `except ... raise` in `transform` logs and re-raises. The model returns the two errors it re-raises, a failed semicolon read and the `KeyError` of `_is_task_row`, as `TimeflipError`. It does not distinguish the kinds of read failure.
- Task names are sequences of code points; the sort order of the pivot's rows is code-point order, which is what pandas uses for Python strings.
- `TimeflipProperties.AlignedTable`: the code does not align values with weeks in general. The lemma covers only the case where every task occurs once per block. Outside it, `ResultTable` gives the exact contents.
