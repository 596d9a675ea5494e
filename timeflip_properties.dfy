/** What `TimeflipTransformer.transform` promises about the table it builds from the
    week-block export, stated over the task rows of the input. */
module TimeflipProperties {
  import opened Wrappers
  import opened Text
  import opened Frames
  import opened TimeflipRows
  import opened TimeflipAccumulator
  import opened TimeflipTransformer

  /** A row that contributes a duration: a task row whose cleaned name is not empty. */
  predicate Qualifies(row: Row) {
    IsTaskRow(row) && CleanTaskName(row) != ""
  }

  /** The number of qualifying rows whose cleaned task name is `t`. */
  function CountNamed(rows: seq<Row>, t: string): nat {
    if rows == [] then 0
    else
      var row := rows[|rows| - 1];
      CountNamed(rows[..|rows| - 1], t) + (if Qualifies(row) && CleanTaskName(row) == t then 1 else 0)
  }

  // Entries, rows and blocks

  lemma SplitLast<T>(s: seq<T>)
    requires s != []
    ensures s == s[..|s| - 1] + [s[|s| - 1]]
  {
  }

  lemma BlockEntriesSnoc(rows: seq<Row>, row: Row, parse: string -> Option<real>)
    ensures BlockEntries(rows + [row], parse) == BlockEntries(rows, parse) + RowEntries(row, parse)
  {
    assert (rows + [row])[..|rows|] == rows;
  }

  lemma {:induction false} BlockEntriesAppend(a: seq<Row>, b: seq<Row>, parse: string -> Option<real>)
    ensures BlockEntries(a + b, parse) == BlockEntries(a, parse) + BlockEntries(b, parse)
  {
    if b == [] {
      assert a + b == a;
    } else {
      var init, row := b[..|b| - 1], b[|b| - 1];
      var ea, ei, er := BlockEntries(a, parse), BlockEntries(init, parse), RowEntries(row, parse);
      SplitLast(b);
      AppendAssoc(a, init, [row]);
      calc {
        BlockEntries(a + b, parse);
        BlockEntries((a + init) + [row], parse);
        { BlockEntriesSnoc(a + init, row, parse); }
        BlockEntries(a + init, parse) + er;
        { BlockEntriesAppend(a, init, parse); }
        (ea + ei) + er;
        { AppendAssoc(ea, ei, er); }
        ea + (ei + er);
        { BlockEntriesSnoc(init, row, parse); }
        ea + BlockEntries(b, parse);
      }
    }
  }

  /** The entries of the blocks are the entries of their rows laid end to end. */
  lemma {:induction false} EntriesFlatten(blocks: seq<seq<Row>>, parse: string -> Option<real>)
    ensures Entries(blocks, parse) == BlockEntries(Flatten(blocks), parse)
  {
    if blocks != [] {
      var init := blocks[..|blocks| - 1];
      EntriesFlatten(init, parse);
      BlockEntriesAppend(Flatten(init), blocks[|blocks| - 1], parse);
    }
  }

  /** The entries `transform` collects are those of the rows inside week blocks. */
  lemma EntriesOfInput(rows: seq<Row>, parse: string -> Option<real>)
    ensures Entries(Segment(rows), parse) == BlockEntries(RowsInBlocks(rows), parse)
  {
    EntriesFlatten(Segment(rows), parse);
    SegmentRows(rows);
  }

  /** Every qualifying row appends exactly one duration to its task's list, whether it parses
      or not: a task's list has one entry per qualifying row bearing its name. */
  lemma {:induction false} OneEntryPerRow(rows: seq<Row>, parse: string -> Option<real>, t: string)
    ensures |ValuesFor(BlockEntries(rows, parse), t)| == CountNamed(rows, t)
  {
    if rows != [] {
      var init, row := rows[..|rows| - 1], rows[|rows| - 1];
      OneEntryPerRow(init, parse, t);
      var es := BlockEntries(init, parse);
      assert BlockEntries(rows, parse) == es + RowEntries(row, parse);
      if Qualifies(row) {
        ValuesForSnoc(es, Entry(CleanTaskName(row), Hours(row, parse)), t);
      } else {
        assert es + RowEntries(row, parse) == es;
      }
    }
  }

  /** A task has entries exactly when it is among the first-seen keys. */
  lemma {:induction false} SeenIffValues(es: seq<Entry>, t: string)
    ensures t in FirstSeen(es) <==> ValuesFor(es, t) != []
  {
    if es != [] {
      var init := es[..|es| - 1];
      SeenIffValues(init, t);
      assert es == init + [es[|es| - 1]];
      FirstSeenSnoc(init, es[|es| - 1]);
      ValuesForSnoc(init, es[|es| - 1], t);
    }
  }

  /** A task counted among some rows has a qualifying row bearing its name. */
  lemma {:induction false} CountWitness(rows: seq<Row>, t: string)
    requires CountNamed(rows, t) > 0
    ensures exists k | 0 <= k < |rows| :: Qualifies(rows[k]) && CleanTaskName(rows[k]) == t
  {
    var init := rows[..|rows| - 1];
    if CountNamed(init, t) > 0 {
      CountWitness(init, t);
      var k :| 0 <= k < |init| && Qualifies(init[k]) && CleanTaskName(init[k]) == t;
      assert rows[k] == init[k];
    }
  }

  lemma {:induction false} CountPositive(rows: seq<Row>, k: nat)
    requires k < |rows| && Qualifies(rows[k])
    ensures CountNamed(rows, CleanTaskName(rows[k])) > 0
  {
    if k < |rows| - 1 {
      CountPositive(rows[..|rows| - 1], k);
    }
  }

  // Keys of the result

  /** The row labels are the distinct stripped names of the qualifying rows inside week
      blocks: a name that strips to nothing, the header token `Task` and rows outside
      every block never become a key. */
  lemma ResultKeys(rows: seq<Row>, parse: string -> Option<real>)
    ensures var f := BlockTable(rows, parse);
      && Distinct(f.index)
      && (forall t :: t in f.index <==> CountNamed(RowsInBlocks(rows), t) > 0)
      && (forall t | t in f.index :: t != "" && Trim(t) == t && t != "Task")
  {
    var f := BlockTable(rows, parse);
    var inBlocks := RowsInBlocks(rows);
    assert f.index == FirstSeen(Entries(Segment(rows), parse));
    EntriesOfInput(rows, parse);
    forall t
      ensures t in f.index <==> CountNamed(inBlocks, t) > 0
    {
      SeenIffCounted(inBlocks, parse, t);
    }
    forall t | t in f.index
      ensures t != "" && Trim(t) == t && t != "Task"
    {
      CountedIsClean(inBlocks, t);
    }
  }

  lemma SeenIffCounted(rows: seq<Row>, parse: string -> Option<real>, t: string)
    ensures t in FirstSeen(BlockEntries(rows, parse)) <==> CountNamed(rows, t) > 0
  {
    SeenIffValues(BlockEntries(rows, parse), t);
    OneEntryPerRow(rows, parse, t);
  }

  lemma CountedIsClean(rows: seq<Row>, t: string)
    requires CountNamed(rows, t) > 0
    ensures t != "" && Trim(t) == t && t != "Task"
  {
    CountWitness(rows, t);
    var k :| 0 <= k < |rows| && Qualifies(rows[k]) && CleanTaskName(rows[k]) == t;
    assert Trim(Cell(rows[k], 1).value) != "Task";
  }

  /** No row of `rows` is a task row with a non-empty name. */
  predicate NoTaskRows(rows: seq<Row>) {
    forall k | 0 <= k < |rows| :: !Qualifies(rows[k])
  }

  /** With no qualifying task row inside a week block, the result is the empty table with
      columns `Task` and `Week 1`; otherwise it has a row per task. */
  lemma ResultEmpty(rows: seq<Row>, parse: string -> Option<real>)
    ensures BlockTable(rows, parse).index == [] <==> NoTaskRows(RowsInBlocks(rows))
    ensures BlockTable(rows, parse).index == [] ==> BlockTable(rows, parse) == EmptyResult
  {
    var f := BlockTable(rows, parse);
    var inBlocks := RowsInBlocks(rows);
    ResultKeys(rows, parse);
    assert !NoTaskRows(inBlocks) ==> f.index != [] by {
      if !NoTaskRows(inBlocks) {
        var k :| 0 <= k < |inBlocks| && Qualifies(inBlocks[k]);
        CountPositive(inBlocks, k);
        assert CleanTaskName(inBlocks[k]) in f.index;
      }
    }
    assert f.index != [] ==> !NoTaskRows(inBlocks) by {
      if f.index != [] {
        CountWitness(inBlocks, f.index[0]);
      }
    }
  }

  // Order of the keys

  /** The task names of the entries, one per entry. */
  function Tasks(es: seq<Entry>): (r: seq<string>)
    ensures |r| == |es| && forall k | 0 <= k < |es| :: r[k] == es[k].task
  {
    seq(|es|, k requires 0 <= k < |es| => es[k].task)
  }

  /** Every key occurs among the entries, and keys are listed by their first occurrence. */
  predicate KeysInOrder(es: seq<Entry>) {
    var keys, ts := FirstSeen(es), Tasks(es);
    (forall t | t in keys :: t in ts) &&
    forall i, j | 0 <= i < j < |keys| :: keys[i] in ts && keys[j] in ts && IndexOf(ts, keys[i]) < IndexOf(ts, keys[j])
  }

  lemma IndexOfExtend(s: seq<string>, x: string, t: string)
    requires t in s
    ensures IndexOf(s + [x], t) == IndexOf(s, t)
  {
    var j := IndexOf(s, t);
    assert (s + [x])[j] == t;
  }

  lemma IndexOfLast(s: seq<string>, x: string)
    requires x !in s
    ensures IndexOf(s + [x], x) == |s|
  {
    assert (s + [x])[|s|] == x;
  }

  lemma KeysInOrderSnoc(es: seq<Entry>, e: Entry)
    requires KeysInOrder(es)
    ensures KeysInOrder(es + [e])
  {
    var seen, before := FirstSeen(es), Tasks(es);
    var keys, after := FirstSeen(es + [e]), Tasks(es + [e]);
    FirstSeenSnoc(es, e);
    assert after == before + [e.task];
    forall t | t in before
      ensures IndexOf(after, t) == IndexOf(before, t)
    {
      IndexOfExtend(before, e.task, t);
    }
    if e.task !in seen {
      assert keys == seen + [e.task];
      assert e.task !in before;
      IndexOfLast(before, e.task);
      forall i, j | 0 <= i < j < |keys|
        ensures keys[i] in after && keys[j] in after && IndexOf(after, keys[i]) < IndexOf(after, keys[j])
      {
        assert keys[i] == seen[i];
        if j < |seen| {
          assert keys[j] == seen[j];
        }
      }
    }
  }

  lemma {:induction false} FirstSeenOrdered(es: seq<Entry>)
    ensures KeysInOrder(es)
  {
    if es != [] {
      var init := es[..|es| - 1];
      FirstSeenOrdered(init);
      KeysInOrderSnoc(init, es[|es| - 1]);
      SplitLast(es);
    }
  }

  /** Keys appear in the order in which their task first occurs among the entries. */
  lemma ResultKeyOrder(rows: seq<Row>, parse: string -> Option<real>)
    ensures var f := BlockTable(rows, parse); var ts := Tasks(Entries(Segment(rows), parse));
      forall i, j | 0 <= i < j < |f.index| ::
        f.index[i] in ts && f.index[j] in ts && IndexOf(ts, f.index[i]) < IndexOf(ts, f.index[j])
  {
    FirstSeenOrdered(Entries(Segment(rows), parse));
  }

  // Cells, padding and labels

  /** Each row holds its task's durations in order of occurrence, right-padded with zeros to
      the length `n` of the longest list; the columns are `Week 1` .. `Week n`. */
  lemma ResultTable(rows: seq<Row>, parse: string -> Option<real>)
    requires BlockTable(rows, parse).index != []
    ensures var f := BlockTable(rows, parse);
      var es := Entries(Segment(rows), parse);
      var n := |f.columns|;
      && n >= 1
      && f.columns == WeekLabels(n)
      && (forall i | 0 <= i < |f.index| :: f.cells[i] == PadRight(ValuesFor(es, f.index[i]), n))
      && (forall i | 0 <= i < |f.index| :: |ValuesFor(es, f.index[i])| <= n)
      && (exists i | 0 <= i < |f.index| :: |ValuesFor(es, f.index[i])| == n)
  {
    var es := Entries(Segment(rows), parse);
    var keys := FirstSeen(es);
    var f := BlockTable(rows, parse);
    assert f.index == keys;
    var n := LongestList(keys, Grouped(es));
    assert |f.columns| == n;
    SeenIffValues(es, keys[0]);
  }

  /** Padding only appends zeros: the durations read stay in place, and a list that already
      has `n` entries is left as it is. */
  lemma PaddingKeepsEntries(xs: seq<real>, n: nat)
    requires |xs| <= n
    ensures |PadRight(xs, n)| == n && PadRight(xs, n)[..|xs|] == xs
    ensures forall k | |xs| <= k < n :: PadRight(xs, n)[k] == 0.0
    ensures |xs| == n ==> PadRight(xs, n) == xs
  {
    var r := PadRight(xs, n);
    if |xs| == n {
      assert r[..|xs|] == r;
    }
  }

  // Week alignment

  /** The one duration of task `t` in a block where it has exactly one row. */
  function OnlyHours(block: seq<Row>, parse: string -> Option<real>, t: string): real
    requires CountNamed(block, t) == 1
  {
    OneEntryPerRow(block, parse, t);
    ValuesFor(BlockEntries(block, parse), t)[0]
  }

  lemma {:induction false} ValuesForAppend(a: seq<Entry>, b: seq<Entry>, t: string)
    ensures ValuesFor(a + b, t) == ValuesFor(a, t) + ValuesFor(b, t)
  {
    if b == [] {
      assert a + b == a;
    } else {
      var init, e := b[..|b| - 1], b[|b| - 1];
      var va, vi, ve := ValuesFor(a, t), ValuesFor(init, t), if e.task == t then [e.hours] else [];
      SplitLast(b);
      AppendAssoc(a, init, [e]);
      calc {
        ValuesFor(a + b, t);
        { ValuesForSnoc(a + init, e, t); }
        ValuesFor(a + init, t) + ve;
        { ValuesForAppend(a, init, t); }
        (va + vi) + ve;
        { AppendAssoc(va, vi, ve); }
        va + (vi + ve);
        { ValuesForSnoc(init, e, t); }
        va + ValuesFor(b, t);
      }
    }
  }

  lemma AlignedValuesSnoc(blocks: seq<seq<Row>>, parse: string -> Option<real>, t: string)
    requires blocks != []
    requires forall k | 0 <= k < |blocks| :: CountNamed(blocks[k], t) == 1
    ensures ValuesFor(Entries(blocks, parse), t)
      == ValuesFor(Entries(blocks[..|blocks| - 1], parse), t) + [OnlyHours(blocks[|blocks| - 1], parse, t)]
  {
    var init, last := blocks[..|blocks| - 1], blocks[|blocks| - 1];
    var before, added := Entries(init, parse), BlockEntries(last, parse);
    assert Entries(blocks, parse) == before + added;
    ValuesForAppend(before, added, t);
    OneEntryPerRow(last, parse, t);
    var vl := ValuesFor(added, t);
    assert vl == [vl[0]];
    assert vl[0] == OnlyHours(last, parse, t);
  }

  /** When a task has exactly one row in every block, its k-th duration comes from block k. */
  lemma {:induction false} AlignedValues(blocks: seq<seq<Row>>, parse: string -> Option<real>, t: string)
    requires forall k | 0 <= k < |blocks| :: CountNamed(blocks[k], t) == 1
    ensures |ValuesFor(Entries(blocks, parse), t)| == |blocks|
    ensures forall k | 0 <= k < |blocks| :: ValuesFor(Entries(blocks, parse), t)[k] == OnlyHours(blocks[k], parse, t)
  {
    if blocks != [] {
      var init := blocks[..|blocks| - 1];
      assert forall k | 0 <= k < |init| :: init[k] == blocks[k];
      AlignedValues(init, parse, t);
      AlignedValuesSnoc(blocks, parse, t);
      var v, vi := ValuesFor(Entries(blocks, parse), t), ValuesFor(Entries(init, parse), t);
      forall k | 0 <= k < |blocks|
        ensures v[k] == OnlyHours(blocks[k], parse, t)
      {
        if k < |init| {
          assert v[k] == vi[k];
        } else {
          assert |vi| == k;
          assert v[k] == (vi + [OnlyHours(blocks[k], parse, t)])[k];
        }
      }
    }
  }

  /** Label `Week k+1` names column k of `Week 1` .. `Week n`. */
  lemma WeekLabelIndex(n: nat, k: nat)
    requires k < n
    ensures WeekLabel(k + 1) in WeekLabels(n) && IndexOf(WeekLabels(n), WeekLabel(k + 1)) == k
  {
    var labels := WeekLabels(n);
    assert labels[k] == WeekLabel(k + 1);
    WeekLabelsDistinct(n);
  }

  /** If every task occurs exactly once in every week block, there is one column per block and
      column `Week k+1` holds each task's duration from block k. */
  lemma AlignedTable(rows: seq<Row>, parse: string -> Option<real>)
    requires BlockTable(rows, parse).index != []
    requires forall t, k | t in BlockTable(rows, parse).index && 0 <= k < |Segment(rows)| ::
      CountNamed(Segment(rows)[k], t) == 1
    ensures var f := BlockTable(rows, parse); var blocks := Segment(rows);
      && f.columns == WeekLabels(|blocks|)
      && forall t, k | t in f.index && 0 <= k < |blocks| ::
           At(f, t, WeekLabel(k + 1)) == Some(OnlyHours(blocks[k], parse, t))
  {
    var f := BlockTable(rows, parse);
    var blocks := Segment(rows);
    var es := Entries(blocks, parse);
    ResultTable(rows, parse);
    var n := |f.columns|;
    var w :| 0 <= w < |f.index| && |ValuesFor(es, f.index[w])| == n;
    var longest := f.index[w];
    assert longest in f.index;
    assert forall k | 0 <= k < |blocks| :: CountNamed(blocks[k], longest) == 1;
    AlignedValues(blocks, parse, longest);
    forall t, k | t in f.index && 0 <= k < |blocks|
      ensures At(f, t, WeekLabel(k + 1)) == Some(OnlyHours(blocks[k], parse, t))
    {
      AlignedCell(f, es, blocks, parse, t, k);
    }
  }

  lemma AlignedCell(f: Frame, es: seq<Entry>, blocks: seq<seq<Row>>, parse: string -> Option<real>, t: string, k: nat)
    requires WellFormed(f) && t in f.index && k < |blocks| && es == Entries(blocks, parse)
    requires f.columns == WeekLabels(|blocks|)
    requires forall i | 0 <= i < |f.index| :: f.cells[i] == PadRight(ValuesFor(es, f.index[i]), |blocks|)
    requires forall k | 0 <= k < |blocks| :: CountNamed(blocks[k], t) == 1
    ensures At(f, t, WeekLabel(k + 1)) == Some(OnlyHours(blocks[k], parse, t))
  {
    AlignedValues(blocks, parse, t);
    WeekLabelIndex(|blocks|, k);
    var xs := ValuesFor(es, t);
    var i := IndexOf(f.index, t);
    assert f.cells[i] == PadRight(xs, |blocks|);
    assert PadRight(xs, |blocks|)[..|xs|][k] == xs[k];
  }
}

/** When `transform` raises, and the empty-result convention over both paths. */
module TransformProperties {
  import opened Wrappers
  import opened Frames
  import opened TimeflipRows
  import opened TimeflipTransformer
  import opened TimeflipProperties
  import SpreadsheetTransformer

  lemma RowsRaiseAppend(a: seq<Row>, b: seq<Row>, width: nat)
    ensures RowsRaise(a + b, width) <==> RowsRaise(a, width) || RowsRaise(b, width)
  {
    if RowsRaise(a + b, width) {
      var k :| 0 <= k < |a + b| && LookupFails((a + b)[k], width);
      if k < |a| {
        assert (a + b)[k] == a[k];
      } else {
        assert (a + b)[k] == b[k - |a|];
      }
    }
    if RowsRaise(a, width) {
      var k :| 0 <= k < |a| && LookupFails(a[k], width);
      assert (a + b)[k] == a[k];
    }
    if RowsRaise(b, width) {
      var k :| 0 <= k < |b| && LookupFails(b[k], width);
      assert (a + b)[|a| + k] == b[k];
    }
  }

  /** Some block has a failing row exactly when the blocks' rows, concatenated, do. */
  lemma {:induction false} FlattenRaises(blocks: seq<seq<Row>>, width: nat)
    ensures BlocksRaise(blocks, width) <==> RowsRaise(Flatten(blocks), width)
  {
    if blocks != [] {
      var init, last := blocks[..|blocks| - 1], blocks[|blocks| - 1];
      FlattenRaises(init, width);
      RowsRaiseAppend(Flatten(init), last, width);
      assert forall i | 0 <= i < |init| :: init[i] == blocks[i];
      if BlocksRaise(blocks, width) && !RowsRaise(last, width) {
        var i :| 0 <= i < |blocks| && RowsRaise(blocks[i], width);
        assert i < |init|;
      }
    }
  }

  /** The week-block path raises `KeyError` exactly when some row inside a week block makes
      `_is_task_row` look up a column the read does not have; rows outside every block and
      marker rows are never looked up. */
  lemma RaisesIffRowInBlockFails(t: Table, parse: string -> Option<real>)
    ensures ComplexResult(Some(t), parse).Failure? <==> RowsRaise(RowsInBlocks(t.rows), t.width)
    ensures ComplexResult(Some(t), parse).Failure? ==> ComplexResult(Some(t), parse).error == KeyError
  {
    SegmentRows(t.rows);
    FlattenRaises(Segment(t.rows), t.width);
  }

  /** A read with at least three columns never raises: the result is the table of its blocks. */
  lemma WideReadSucceeds(t: Table, parse: string -> Option<real>)
    requires t.width >= 3
    ensures ComplexResult(Some(t), parse) == Success(BlockTable(t.rows, parse))
  {
    RaisesIffRowInBlockFails(t, parse);
  }

  /** A read with one column raises as soon as a week block has a row; with two columns it
      raises as soon as a row inside a block has a task-name cell. */
  lemma NarrowReadRaises(t: Table, parse: string -> Option<real>)
    requires t.width < 3
    ensures t.width == 1 ==> (ComplexResult(Some(t), parse).Failure? <==> RowsInBlocks(t.rows) != [])
    ensures t.width == 2 ==> (ComplexResult(Some(t), parse).Failure? <==>
      exists k | 0 <= k < |RowsInBlocks(t.rows)| :: Cell(RowsInBlocks(t.rows)[k], 1).Some?)
  {
    var inBlocks := RowsInBlocks(t.rows);
    RaisesIffRowInBlockFails(t, parse);
    if t.width == 1 && inBlocks != [] {
      assert LookupFails(inBlocks[0], t.width);
    }
  }

  /** Whichever path produced it, a returned table is well formed, and it is empty (no rows
      or no columns) only when it is the fixed table with columns `Task` and `Week 1`. */
  lemma TransformEmptyConvention(commaRead: Option<SpreadsheetTransformer.Sheet>, semicolonRead: Option<Table>,
                                 parse: string -> Option<real>)
    requires TransformResult(commaRead, semicolonRead, parse).Success?
    ensures WellFormed(TransformResult(commaRead, semicolonRead, parse).value)
    ensures IsEmpty(TransformResult(commaRead, semicolonRead, parse).value) ==>
      TransformResult(commaRead, semicolonRead, parse).value == EmptyResult
  {
    var simple := SimpleResult(commaRead);
    if simple.Some? {
      var records := commaRead.value.records;
      if records != [] {
        SpreadsheetTransformer.PivotEmptyIffNoRecords(records);
      }
    } else {
      var rows := semicolonRead.value.rows;
      var f := BlockTable(rows, parse);
      ResultEmpty(rows, parse);
      if f.index != [] {
        ResultTable(rows, parse);
      }
    }
  }
}
