/** `TimeflipTransformer.transform`: try the simple (Task, Week, Value) pivot, and fall
    back to the week-block export when that is not possible. */
module TimeflipTransformer {
  import opened Wrappers
  import opened Frames
  import opened TimeflipRows
  import opened TimeflipAccumulator
  import SpreadsheetTransformer

  // The week-block path

  /** Why `transform` raises: the semicolon read failed, or `_is_task_row` looked up a column
      the read does not have. */
  datatype TimeflipError = ReadFailed | KeyError

  /** Some row of some week block makes `_is_task_row` raise. */
  predicate BlocksRaise(weeks: seq<seq<Row>>, width: nat) {
    exists i | 0 <= i < |weeks| :: RowsRaise(weeks[i], width)
  }

  /** The table the week-block path builds from the semicolon rows `rows` when no lookup raises. */
  function BlockTable(rows: seq<Row>, parse: string -> Option<real>): (f: Frame)
    ensures WellFormed(f)
  {
    var es := Entries(Segment(rows), parse);
    var keys := FirstSeen(es);
    if keys == [] then EmptyResult
    else
      var lists := Grouped(es);
      var n := LongestList(keys, lists);
      Frame(WeekLabels(n), keys, ListsOf(keys, PadLists(lists, n)))
  }

  /** What the week-block path returns or raises, given the semicolon read (`None` when it
      raised). */
  function ComplexResult(read: Option<Table>, parse: string -> Option<real>): (r: Result<Frame, TimeflipError>)
    ensures r.Failure? <==> read.None? || BlocksRaise(Segment(read.value.rows), read.value.width)
    ensures r.Failure? ==> (r.error == ReadFailed <==> read.None?)
    ensures r.Success? ==> WellFormed(r.value) && r.value == BlockTable(read.value.rows, parse)
  {
    match read
    case None => Failure(ReadFailed)
    case Some(t) =>
      if BlocksRaise(Segment(t.rows), t.width) then Failure(KeyError) else Success(BlockTable(t.rows, parse))
  }

  lemma AppendAssoc<T>(a: seq<T>, b: seq<T>, c: seq<T>)
    ensures a + (b + c) == (a + b) + c
  {
  }

  lemma MapUpdateTwice<K, V>(m: map<K, V>, k: K, a: V, b: V)
    ensures m[k := a][k := b] == m[k := b]
  {
  }

  lemma RecordStep(es: seq<Entry>, e: Entry)
    ensures FirstSeen(es + [e]) == if e.task in FirstSeen(es) then FirstSeen(es) else FirstSeen(es) + [e.task]
    ensures Grouped(es + [e]) == Grouped(es)[e.task := ValuesFor(es, e.task) + [e.hours]]
    ensures e.task in Grouped(es) ==> Grouped(es)[e.task] == ValuesFor(es, e.task)
    ensures e.task !in Grouped(es) ==> ValuesFor(es, e.task) == []
  {
    FirstSeenSnoc(es, e);
    GroupedSnoc(es, e);
    if e.task !in FirstSeen(es) {
      ValuesForUnseen(es, e.task);
    }
  }

  /** `table` is the dictionary built from the entries `es`: their tasks in first-seen order,
      each with its durations in order of occurrence. */
  ghost predicate Records(table: TaskDurations, es: seq<Entry>)
    reads table
  {
    table.Valid() && table.order == FirstSeen(es) && table.durations == Grouped(es)
  }

  /** `all_tasks[name].append(v)`, creating the list on the task's first occurrence. */
  method RecordEntry(table: TaskDurations, e: Entry, ghost es: seq<Entry>)
    requires Records(table, es)
    modifies table
    ensures Records(table, es + [e])
  {
    RecordStep(es, e);
    ghost var before := table.durations;
    if e.task !in table.durations {
      table.AddTask(e.task);
    }
    ghost var mid := table.durations;
    assert mid == before[e.task := ValuesFor(es, e.task)];
    table.Append(e.task, e.hours);
    MapUpdateTwice(before, e.task, ValuesFor(es, e.task), ValuesFor(es, e.task) + [e.hours]);
  }

  /** The body of the inner loop over a block's rows: `_is_task_row` raises on a missing
      column; otherwise a task row with a non-empty cleaned name adds its duration to that
      task's list, creating the list on first occurrence. */
  method RecordRow(table: TaskDurations, row: Row, width: nat, parse: string -> Option<real>, ghost es: seq<Entry>)
    returns (ok: bool)
    requires Records(table, es)
    modifies table
    ensures table.Valid()
    ensures ok == !LookupFails(row, width)
    ensures ok ==> Records(table, es + RowEntries(row, parse))
  {
    if LookupFails(row, width) {
      return false;
    }
    ok := true;
    if IsTaskRow(row) {
      var name := CleanTaskName(row);
      if name != "" {
        var hours := Hours(row, parse);
        RecordEntry(table, Entry(name, hours), es);
        assert RowEntries(row, parse) == [Entry(name, hours)];
        return;
      }
    }
    assert RowEntries(row, parse) == [];
    assert es + [] == es;
  }

  lemma BlockEntriesStep(done: seq<Entry>, block: seq<Row>, i: nat, parse: string -> Option<real>)
    requires i < |block|
    ensures done + BlockEntries(block[..i + 1], parse) == done + BlockEntries(block[..i], parse) + RowEntries(block[i], parse)
  {
    BlockEntriesPrefix(block, i, parse);
    AppendAssoc(done, BlockEntries(block[..i], parse), RowEntries(block[i], parse));
  }

  lemma NoFailureExtends(block: seq<Row>, i: nat, width: nat)
    requires i < |block| && !LookupFails(block[i], width)
    requires forall k | 0 <= k < i :: !LookupFails(block[k], width)
    ensures forall k | 0 <= k < i + 1 :: !LookupFails(block[k], width)
  {
  }

  /** The loop over the rows of one week block (`week_df.iterrows()`): record every task row,
      stopping at the first row whose lookup raises. */
  method RecordBlock(table: TaskDurations, block: seq<Row>, width: nat, parse: string -> Option<real>,
                     ghost done: seq<Entry>) returns (ok: bool)
    requires Records(table, done)
    modifies table
    ensures table.Valid()
    ensures ok == !RowsRaise(block, width)
    ensures ok ==> Records(table, done + BlockEntries(block, parse))
  {
    assert block[..0] == [];
    ghost var es := done;
    for i := 0 to |block|
      invariant forall k | 0 <= k < i :: !LookupFails(block[k], width)
      invariant es == done + BlockEntries(block[..i], parse)
      invariant Records(table, es)
    {
      var rowOk := RecordRow(table, block[i], width, parse, es);
      if !rowOk {
        assert LookupFails(block[i], width);
        return false;
      }
      NoFailureExtends(block, i, width);
      BlockEntriesStep(done, block, i, parse);
      es := es + RowEntries(block[i], parse);
    }
    assert block[..|block|] == block;
    assert !RowsRaise(block, width);
    ok := true;
  }

  lemma NoBlockFailureExtends(weeks: seq<seq<Row>>, w: nat, width: nat)
    requires w < |weeks| && !RowsRaise(weeks[w], width)
    requires forall j | 0 <= j < w :: !RowsRaise(weeks[j], width)
    ensures forall j | 0 <= j < w + 1 :: !RowsRaise(weeks[j], width)
  {
  }

  /** The loop over the week blocks, starting from the empty dictionary `all_tasks = {}`. */
  method CollectTasks(weeks: seq<seq<Row>>, width: nat, parse: string -> Option<real>)
    returns (table: TaskDurations, ok: bool)
    ensures fresh(table) && table.Valid()
    ensures ok == !BlocksRaise(weeks, width)
    ensures ok ==> Records(table, Entries(weeks, parse))
  {
    table := new TaskDurations();
    for w := 0 to |weeks|
      invariant forall j | 0 <= j < w :: !RowsRaise(weeks[j], width)
      invariant Records(table, Entries(weeks[..w], parse))
    {
      var blockOk := RecordBlock(table, weeks[w], width, parse, Entries(weeks[..w], parse));
      if !blockOk {
        return table, false;
      }
      NoBlockFailureExtends(weeks, w, width);
      EntriesPrefix(weeks, w, parse);
    }
    assert weeks[..|weeks|] == weeks;
    ok := true;
  }

  /** The fallback of `transform`: read the file as semicolon rows, segment them into week
      blocks, collect every task row's duration per task, pad the lists and label the columns
      `Week 1` .. `Week n`; a failed read or a failed lookup raises. */
  method ComplexTransform(read: Option<Table>, parse: string -> Option<real>) returns (r: Result<Frame, TimeflipError>)
    ensures r == ComplexResult(read, parse)
  {
    if read.None? {
      return Failure(ReadFailed);
    }
    var weeks := ParseWeeks(read.value.rows);
    var table, ok := CollectTasks(weeks, read.value.width, parse);
    if !ok {
      return Failure(KeyError);
    }
    if table.order == [] {
      return Success(EmptyResult);
    }
    var n := table.Longest();
    table.PadTo(n);
    r := Success(Frame(WeekLabels(n), table.order, ListsOf(table.order, table.durations)));
  }

  // Format dispatch

  /** What the simple path yields, or `None` when `transform` falls through to the
      week-block path: the comma read failed, a required column is missing, or the pivot
      raised on a duplicate (Task, Week) pair. */
  function SimpleResult(commaRead: Option<SpreadsheetTransformer.Sheet>): (r: Option<Frame>)
    ensures r.Some? <==>
      && commaRead.Some?
      && SpreadsheetTransformer.RequiredColumns <= (set c | c in commaRead.value.columns)
      && !SpreadsheetTransformer.HasDuplicatePair(commaRead.value.records)
    ensures r.Some? && commaRead.value.records != [] ==>
      r.value == SpreadsheetTransformer.Pivot(commaRead.value.records).value
    ensures r.Some? && commaRead.value.records == [] ==> r.value == EmptyResult
  {
    if commaRead.Some? && SpreadsheetTransformer.RequiredColumns <= set c | c in commaRead.value.columns then
      match SpreadsheetTransformer.Pivot(commaRead.value.records)
      case Success(f) =>
        SpreadsheetTransformer.PivotEmptyIffNoRecords(commaRead.value.records);
        Some(if IsEmpty(f) then EmptyResult else f)
      case Failure(_) => None
    else None
  }

  /** What `transform` returns or raises. `commaRead` is the file read as a comma-separated
      table with a header (`None` when that read raised); `semicolonRead` is the file read as
      semicolon-separated rows without a header (`None` when that read raised). */
  function TransformResult(commaRead: Option<SpreadsheetTransformer.Sheet>, semicolonRead: Option<Table>,
                           parse: string -> Option<real>): (r: Result<Frame, TimeflipError>)
    ensures r.Failure? <==>
      SimpleResult(commaRead).None? &&
      (semicolonRead.None? || BlocksRaise(Segment(semicolonRead.value.rows), semicolonRead.value.width))
  {
    match SimpleResult(commaRead)
    case Some(f) => Success(f)
    case None => ComplexResult(semicolonRead, parse)
  }

  method Transform(commaRead: Option<SpreadsheetTransformer.Sheet>, semicolonRead: Option<Table>,
                   parse: string -> Option<real>) returns (r: Result<Frame, TimeflipError>)
    ensures r == TransformResult(commaRead, semicolonRead, parse)
  {
    if commaRead.Some? && SpreadsheetTransformer.RequiredColumns <= set c | c in commaRead.value.columns {
      var pivoted := SpreadsheetTransformer.Pivot(commaRead.value.records);
      if pivoted.Success? {
        if IsEmpty(pivoted.value) {
          return Success(EmptyResult);
        }
        return Success(pivoted.value);
      }
    }
    r := ComplexTransform(semicolonRead, parse);
  }
}
