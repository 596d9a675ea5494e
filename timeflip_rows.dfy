/** The row-level helpers of `TimeflipTransformer`: `_parse_weeks`, `_is_task_row` and
    `_clean_task_name`, over rows read from the semicolon-separated export. */
module TimeflipRows {
  import opened Wrappers
  import opened Text

  /** One row of the semicolon export; `None` is an empty (NaN) cell. */
  type Row = seq<Option<string>>

  /** Cell `i` of a row; cells past the end of a short row read as missing, as pandas pads them. */
  function Cell(row: Row, i: nat): Option<string> {
    if i < |row| then row[i] else None
  }

  /** A read always has at least one column: a file with none makes the reader raise. */
  type ColumnCount = n: nat | 1 <= n witness 1

  /** A successful semicolon read: pandas labels the columns 0 .. width-1, `width` being the
      number of fields of the first line, and pads shorter rows with NaN. A row here lists its
      cells up to its last non-empty one, and the cells after it read as missing; a line with
      more fields than `width` makes the reader raise, so no row is longer. A lookup of a
      column at or past `width` raises `KeyError` (`LookupFails`). */
  datatype Table = Table(width: ColumnCount, rows: seq<Row>)

  /** A week marker: the first cell is present and has `Week #` as a prefix. */
  predicate IsMarker(row: Row)
    ensures IsMarker(row) <==> |row| > 0 && row[0].Some? && "Week #" <= row[0].value
  {
    Cell(row, 0).Some? && StartsWith(Cell(row, 0).value, "Week #")
  }

  predicate NoMarkers(rows: seq<Row>) {
    forall k | 0 <= k < |rows| :: !IsMarker(rows[k])
  }

  // _parse_weeks

  /** The loop state of `_parse_weeks`: closed blocks and the open block (`current_week`). */
  datatype Scan = Scan(weeks: seq<seq<Row>>, current: Option<seq<Row>>)

  /** One iteration: a marker closes the open block, if any, and opens an empty one; any
      other row joins the open block, or is dropped when none is open yet. */
  function Step(st: Scan, row: Row): Scan {
    if IsMarker(row) then Scan(AllBlocks(st), Some([]))
    else if st.current.Some? then Scan(st.weeks, Some(st.current.value + [row]))
    else st
  }

  /** A step adds one empty block after the others for a marker; any other row is appended
      to the open (last) block, or dropped when none is open. The blocks before the open one
      stay as they were, so no block is lost or reordered and no row moves. */
  lemma StepBlocks(st: Scan, row: Row)
    ensures IsMarker(row) ==> AllBlocks(Step(st, row)) == AllBlocks(st) + [[]]
    ensures !IsMarker(row) && st.current.Some? ==>
      var b := AllBlocks(st);
      |b| > 0 && AllBlocks(Step(st, row)) == b[..|b| - 1] + [b[|b| - 1] + [row]]
    ensures !IsMarker(row) && st.current.None? ==> AllBlocks(Step(st, row)) == AllBlocks(st)
    ensures |AllBlocks(Step(st, row))| == |AllBlocks(st)| + (if IsMarker(row) then 1 else 0)
    ensures Flatten(AllBlocks(Step(st, row))) ==
      Flatten(AllBlocks(st)) + (if IsMarker(row) || st.current.None? then [] else [row])
  {
    if IsMarker(row) {
      assert (AllBlocks(st) + [[]])[..|AllBlocks(st)|] == AllBlocks(st);
    } else if st.current.Some? {
      var c := st.current.value;
      assert (st.weeks + [c + [row]])[..|st.weeks|] == st.weeks;
      assert (st.weeks + [c])[..|st.weeks|] == st.weeks;
    }
  }

  /** The blocks of a state, the open one (even if empty) included. */
  function AllBlocks(st: Scan): seq<seq<Row>> {
    if st.current.Some? then st.weeks + [st.current.value] else st.weeks
  }

  /** The state after the loop has consumed `rows`. */
  function ScanRows(rows: seq<Row>): Scan {
    if rows == [] then Scan([], None) else Step(ScanRows(rows[..|rows| - 1]), rows[|rows| - 1])
  }

  /** The blocks `_parse_weeks` returns: the final open block is kept only when non-empty.
      No block holds a marker row. */
  function Segment(rows: seq<Row>): (r: seq<seq<Row>>)
    ensures forall i | 0 <= i < |r| :: NoMarkers(r[i])
  {
    var st := ScanRows(rows);
    AllBlocksHoldNoMarkers(rows);
    if st.current.Some? && st.current.value != [] then AllBlocks(st)
    else
      assert forall i | 0 <= i < |st.weeks| :: AllBlocks(st)[i] == st.weeks[i];
      assert forall i | 0 <= i < |st.weeks| :: NoMarkers(AllBlocks(st)[i]);
      st.weeks
  }

  /** Every block of the scan, the open one included, is free of markers. */
  lemma {:induction false} AllBlocksHoldNoMarkers(rows: seq<Row>)
    ensures forall i | 0 <= i < |AllBlocks(ScanRows(rows))| :: NoMarkers(AllBlocks(ScanRows(rows))[i])
  {
    if rows != [] {
      var init, row := rows[..|rows| - 1], rows[|rows| - 1];
      AllBlocksHoldNoMarkers(init);
      var st := ScanRows(init);
      if !IsMarker(row) && st.current.Some? {
        var c := st.current.value;
        assert AllBlocks(st)[|st.weeks|] == c;
        assert AllBlocks(ScanRows(rows)) == st.weeks + [c + [row]];
        assert forall i | 0 <= i < |st.weeks| :: AllBlocks(st)[i] == st.weeks[i];
      }
    }
  }

  method ParseWeeks(rows: seq<Row>) returns (weeks: seq<seq<Row>>)
    ensures weeks == Segment(rows)
  {
    weeks := [];
    var current: Option<seq<Row>> := None;
    for i := 0 to |rows|
      invariant Scan(weeks, current) == ScanRows(rows[..i])
    {
      assert rows[..i + 1][..i] == rows[..i];
      var row := rows[i];
      if IsMarker(row) {
        if current.Some? {
          weeks := weeks + [current.value];
        }
        current := Some([]);
      } else if current.Some? {
        current := Some(current.value + [row]);
      }
    }
    assert rows[..|rows|] == rows;
    if current.Some? && current.value != [] {
      weeks := weeks + [current.value];
    }
  }

  // Properties of the segmentation

  /** A block is open exactly when a marker has been seen. */
  lemma {:induction false} OpenIffMarkerSeen(rows: seq<Row>)
    ensures ScanRows(rows).current.Some? <==> !NoMarkers(rows)
  {
    if rows != [] {
      var init := rows[..|rows| - 1];
      OpenIffMarkerSeen(init);
      assert forall k | 0 <= k < |init| :: init[k] == rows[k];
    }
  }

  /** Rows before the first marker belong to no block: without a marker there are no blocks. */
  lemma SegmentWithoutMarkers(rows: seq<Row>)
    requires NoMarkers(rows)
    ensures ScanRows(rows) == Scan([], None) && Segment(rows) == []
  {
    OpenIffMarkerSeen(rows);
    BlocksCount(rows);
  }

  /** The rows after a marker, up to the next marker, form the block that marker opened;
      the blocks before it are closed as they were, an empty one included. */
  lemma {:induction false} ScanAfterMarker(pre: seq<Row>, marker: Row, body: seq<Row>)
    requires IsMarker(marker) && NoMarkers(body)
    ensures ScanRows(pre + [marker] + body) == Scan(AllBlocks(ScanRows(pre)), Some(body))
  {
    if body == [] {
      assert pre + [marker] + body == pre + [marker];
      assert (pre + [marker])[..|pre|] == pre;
    } else {
      var init := body[..|body| - 1];
      ScanAfterMarker(pre, marker, init);
      assert (pre + [marker] + body)[..|pre| + 1 + |init|] == pre + [marker] + init;
      assert init + [body[|body| - 1]] == body;
    }
  }

  /** The number of blocks, the open one included, is the number of markers. */
  function MarkerCount(rows: seq<Row>): nat {
    if rows == [] then 0
    else MarkerCount(rows[..|rows| - 1]) + (if IsMarker(rows[|rows| - 1]) then 1 else 0)
  }

  lemma {:induction false} BlocksCount(rows: seq<Row>)
    ensures |AllBlocks(ScanRows(rows))| == MarkerCount(rows)
    ensures rows != [] && ScanRows(rows).current.Some? ==>
      (ScanRows(rows).current.value == [] <==> IsMarker(rows[|rows| - 1]))
    ensures rows == [] ==> ScanRows(rows).current.None?
  {
    if rows != [] {
      BlocksCount(rows[..|rows| - 1]);
    }
  }

  /** Every marker opens a block; only a trailing empty block (input ending in a marker)
      is dropped. */
  lemma SegmentCount(rows: seq<Row>)
    ensures |Segment(rows)| ==
      MarkerCount(rows) - (if rows != [] && IsMarker(rows[|rows| - 1]) then 1 else 0)
  {
    BlocksCount(rows);
    OpenIffMarkerSeen(rows);
  }

  function Flatten(blocks: seq<seq<Row>>): seq<Row> {
    if blocks == [] then [] else Flatten(blocks[..|blocks| - 1]) + blocks[|blocks| - 1]
  }

  /** The rows of `rows` that are not markers. */
  function WithoutMarkers(rows: seq<Row>): seq<Row> {
    if rows == [] then []
    else if IsMarker(rows[0]) then WithoutMarkers(rows[1..])
    else [rows[0]] + WithoutMarkers(rows[1..])
  }

  /** The rows that belong to some block: every non-marker row after the first marker. */
  function RowsInBlocks(rows: seq<Row>): seq<Row> {
    if rows == [] then []
    else if IsMarker(rows[0]) then WithoutMarkers(rows[1..])
    else RowsInBlocks(rows[1..])
  }

  lemma {:induction false} WithoutMarkersSnoc(rows: seq<Row>, row: Row)
    ensures WithoutMarkers(rows + [row]) == WithoutMarkers(rows) + (if IsMarker(row) then [] else [row])
  {
    if rows != [] {
      assert (rows + [row])[1..] == rows[1..] + [row];
      WithoutMarkersSnoc(rows[1..], row);
    }
  }

  lemma {:induction false} RowsInBlocksSnoc(rows: seq<Row>, row: Row)
    ensures RowsInBlocks(rows + [row]) ==
      RowsInBlocks(rows) + (if IsMarker(row) || NoMarkers(rows) then [] else [row])
  {
    if rows != [] {
      assert (rows + [row])[1..] == rows[1..] + [row];
      if IsMarker(rows[0]) {
        WithoutMarkersSnoc(rows[1..], row);
      } else {
        RowsInBlocksSnoc(rows[1..], row);
        assert NoMarkers(rows) <==> NoMarkers(rows[1..]) by {
          assert forall k | 1 <= k < |rows| :: rows[k] == rows[1..][k - 1];
        }
      }
    }
  }

  lemma {:induction false} FlattenAllBlocks(rows: seq<Row>)
    ensures Flatten(AllBlocks(ScanRows(rows))) == RowsInBlocks(rows)
  {
    if rows != [] {
      var init, row := rows[..|rows| - 1], rows[|rows| - 1];
      assert init + [row] == rows;
      FlattenAllBlocks(init);
      RowsInBlocksSnoc(init, row);
      OpenIffMarkerSeen(init);
      var st := ScanRows(init);
      if IsMarker(row) {
        assert AllBlocks(ScanRows(rows)) == AllBlocks(st) + [[]];
        assert Flatten(AllBlocks(st) + [[]]) == Flatten(AllBlocks(st)) + [];
      } else if st.current.Some? {
        var c := st.current.value;
        assert AllBlocks(ScanRows(rows)) == st.weeks + [c + [row]];
        assert (st.weeks + [c + [row]])[..|st.weeks|] == st.weeks;
        assert (st.weeks + [c])[..|st.weeks|] == st.weeks;
      }
    }
  }

  /** Blocks hold exactly the non-marker rows after the first marker, in input order:
      markers and the rows before the first marker belong to no block. */
  lemma SegmentRows(rows: seq<Row>)
    ensures Flatten(Segment(rows)) == RowsInBlocks(rows)
  {
    FlattenAllBlocks(rows);
    var st := ScanRows(rows);
    if st.current.Some? && st.current.value == [] {
      assert AllBlocks(st) == st.weeks + [[]];
      assert (st.weeks + [[]])[..|st.weeks|] == st.weeks;
    }
  }

  // _is_task_row and _clean_task_name

  /** A task row: task name and time cells present, a tag cell that is empty, `-` or
      whitespace, and a task name other than the header's `Task`. */
  predicate IsTaskRow(row: Row) {
    && Cell(row, 1).Some?
    && Cell(row, 2).Some?
    && (Cell(row, 0).None? || Trim(Cell(row, 0).value) in ["-", ""])
    && Trim(Cell(row, 1).value) != "Task"
  }

  /** The task name with surrounding whitespace removed; a missing cell renders as `nan`,
      as `str` does for NaN. */
  function CleanTaskName(row: Row): (r: string)
    ensures Trim(r) == r
    ensures Cell(row, 1).None? ==> r == "nan"
    ensures Cell(row, 1).Some? ==> (r == [] <==> AllSpace(Cell(row, 1).value))
    ensures Cell(row, 1).Some? ==> exists i :: StrippedAt(Cell(row, 1).value, r, i)
  {
    match Cell(row, 1)
    case Some(s) => TrimIdempotent(s); Trim(s)
    case None => TrimOfStripped("nan"); "nan"
  }

  /** `_is_task_row` looks up `row[1]` and, when that cell is present, `row[2]`; a column label
      the read does not have raises `KeyError`. */
  predicate LookupFails(row: Row, width: nat) {
    width < 2 || (width < 3 && Cell(row, 1).Some?)
  }

  /** Some row of `rows` makes `_is_task_row` raise. */
  predicate RowsRaise(rows: seq<Row>, width: nat) {
    exists k | 0 <= k < |rows| :: LookupFails(rows[k], width)
  }

  /** A task row has its name and time cells, so at least three cells; its cleaned name is
      never the header's `Task`. */
  lemma TaskRowCells(row: Row)
    requires IsTaskRow(row)
    ensures |row| >= 3 && CleanTaskName(row) != "Task"
  {
  }

  /** A week marker is never a task row: its tag cell starts with `W`, so it is neither empty
      nor `-` once stripped. */
  lemma MarkerIsNotTaskRow(row: Row)
    requires IsMarker(row)
    ensures !IsTaskRow(row)
  {
    var s := Cell(row, 0).value;
    assert s[0] == 'W';
    TrimKeepsFirst(s);
  }

  /** The column-header row under each marker (`Tag;Task;Time;...`) is never a task row. */
  lemma HeaderIsNotTaskRow(row: Row)
    requires Cell(row, 1) == Some("Task")
    ensures !IsTaskRow(row)
  {
    TrimOfStripped("Task");
  }
}
