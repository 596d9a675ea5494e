/** What the model gives on the inputs of the repository's tests (the two-week export, the
    simple (Task, Week, Value) file and the header-only file) and on a one-column file. */
module Examples {
  import opened Wrappers
  import opened Text
  import opened Frames
  import opened TimeflipRows
  import opened TimeflipAccumulator
  import opened TimeflipTransformer
  import opened Ordering
  import opened SpreadsheetTransformer
  import opened TimeflipProperties
  import opened TransformProperties

  // The two-week export, as the semicolon reader yields it: blank lines are skipped, the read
  // has nine columns (the fields of the first line) and each row below stops at its last
  // non-empty cell, the rest being NaN padding.

  const Account: Row := [Some("Account:"), Some("Michael Hunter")]
  const Period: Row := [Some("From:"), Some("01.01.2025"), None, Some("To:"), Some("11.01.2025")]
  const Week1: Row := [Some("Week #1"), None, None, None, Some("29.12.2024"), Some("30.12.2024"), Some("31.12.2024")]
  const Week2: Row := [Some("Week #2"), None, None, None, Some("05.01.2025"), Some("06.01.2025"), Some("07.01.2025")]
  const Header: Row := [Some("Tag"), Some("Task"), Some("Time"), Some("Hour Rate"), Some("Sun"), Some("Mon"), Some("Tue")]
  const Code1: Row := [Some("-"), Some("Code"), Some("7.75")]
  const Slack1: Row := [None, Some("Slack"), Some("6.39")]
  const Code2: Row := [Some("-"), Some("Code"), Some("5.89")]
  const Slack2: Row := [None, Some("Slack"), Some("15.45")]

  const Export: seq<Row> := [Account, Period, Week1, Header, Code1, Slack1, Week2, Header, Code2, Slack2]

  /** The export has two week blocks, each its header and two task rows. */
  lemma ExportBlocks()
    ensures Segment(Export) == [[Header, Code1, Slack1], [Header, Code2, Slack2]]
  {
    var pre := [Account, Period];
    assert !IsMarker(Account) by { assert "Account:"[0] != "Week #"[0]; }
    assert !IsMarker(Period) by { assert "From:"[0] != "Week #"[0]; }
    assert NoMarkers(pre);
    SegmentWithoutMarkers(pre);
    assert IsMarker(Week1) && IsMarker(Week2);
    assert !IsMarker(Header) by { assert "Tag"[0] != "Week #"[0]; }
    assert !IsMarker(Code1) && !IsMarker(Code2) by { assert "-"[0] != "Week #"[0]; }
    var b1, b2 := [Header, Code1, Slack1], [Header, Code2, Slack2];
    assert NoMarkers(b1) && NoMarkers(b2);
    ScanAfterMarker(pre, Week1, b1);
    var first := pre + [Week1] + b1;
    ScanAfterMarker(first, Week2, b2);
    assert Export == first + [Week2] + b2;
  }

  /** A row `[tag, name, time]` with tag `-` or empty is a task row of that name. */
  lemma TaskRowEntry(tag: Option<string>, name: string, time: string, v: real, parse: string -> Option<real>)
    requires tag == None || tag == Some("-")
    requires name != [] && name != "Task" && !IsSpace(name[0]) && !IsSpace(name[|name| - 1])
    requires parse(time) == Some(v)
    ensures RowEntries([tag, Some(name), Some(time)], parse) == [Entry(name, v)]
  {
    TrimOfStripped(name);
    TrimOfStripped("-");
  }

  /** A parser that reads the four durations of the export as the reals they denote. */
  predicate ReadsExport(parse: string -> Option<real>) {
    && parse("7.75") == Some(7.75) && parse("6.39") == Some(6.39)
    && parse("5.89") == Some(5.89) && parse("15.45") == Some(15.45)
  }

  /** The prefixes of short sequence displays, stated once for any element type. */
  lemma Prefixes<T>(a: T, b: T, c: T)
    ensures [a, b, c][..2] == [a, b] && [a, b][..1] == [a] && [a][..0] == []
  {
  }

  lemma ThreeRowBlock(r0: Row, r1: Row, r2: Row, parse: string -> Option<real>)
    ensures BlockEntries([r0, r1, r2], parse) ==
      RowEntries(r0, parse) + RowEntries(r1, parse) + RowEntries(r2, parse)
  {
    Prefixes(r0, r1, r2);
    assert BlockEntries([r0], parse) == RowEntries(r0, parse);
    assert BlockEntries([r0, r1], parse) == BlockEntries([r0], parse) + RowEntries(r1, parse);
  }

  lemma TwoBlocks(b1: seq<Row>, b2: seq<Row>, parse: string -> Option<real>)
    ensures Entries([b1, b2], parse) == BlockEntries(b1, parse) + BlockEntries(b2, parse)
  {
    Prefixes(b1, b2, b2);
    assert Entries([b1], parse) == BlockEntries(b1, parse);
  }

  /** Header rows contribute nothing; each task row contributes its name and duration. */
  lemma ExportEntries(parse: string -> Option<real>)
    requires ReadsExport(parse)
    ensures Entries(Segment(Export), parse) ==
      [Entry("Code", 7.75), Entry("Slack", 6.39), Entry("Code", 5.89), Entry("Slack", 15.45)]
  {
    ExportBlocks();
    BlocksEntries(parse);
  }

  /** The column-header row under a marker contributes no entry. */
  lemma HeaderEntries(parse: string -> Option<real>)
    ensures RowEntries(Header, parse) == []
  {
    HeaderIsNotTaskRow(Header);
  }

  lemma BlockEntriesOf(r1: Row, r2: Row, e1: Entry, e2: Entry, parse: string -> Option<real>)
    requires RowEntries(r1, parse) == [e1] && RowEntries(r2, parse) == [e2]
    ensures BlockEntries([Header, r1, r2], parse) == [e1, e2]
  {
    HeaderEntries(parse);
    ThreeRowBlock(Header, r1, r2, parse);
    Snocs(e1, e2, e2, e2);
  }

  lemma Code1Entry(parse: string -> Option<real>)
    requires ReadsExport(parse)
    ensures RowEntries(Code1, parse) == [Entry("Code", 7.75)]
  {
    TaskRowEntry(Some("-"), "Code", "7.75", 7.75, parse);
  }

  lemma Slack1Entry(parse: string -> Option<real>)
    requires ReadsExport(parse)
    ensures RowEntries(Slack1, parse) == [Entry("Slack", 6.39)]
  {
    TaskRowEntry(None, "Slack", "6.39", 6.39, parse);
  }

  lemma Code2Entry(parse: string -> Option<real>)
    requires ReadsExport(parse)
    ensures RowEntries(Code2, parse) == [Entry("Code", 5.89)]
  {
    TaskRowEntry(Some("-"), "Code", "5.89", 5.89, parse);
  }

  lemma Slack2Entry(parse: string -> Option<real>)
    requires ReadsExport(parse)
    ensures RowEntries(Slack2, parse) == [Entry("Slack", 15.45)]
  {
    TaskRowEntry(None, "Slack", "15.45", 15.45, parse);
  }

  lemma BlocksEntries(parse: string -> Option<real>)
    requires ReadsExport(parse)
    ensures Entries([[Header, Code1, Slack1], [Header, Code2, Slack2]], parse) ==
      [Entry("Code", 7.75), Entry("Slack", 6.39), Entry("Code", 5.89), Entry("Slack", 15.45)]
  {
    Code1Entry(parse);
    Slack1Entry(parse);
    Code2Entry(parse);
    Slack2Entry(parse);
    BlockEntriesOf(Code1, Slack1, Entry("Code", 7.75), Entry("Slack", 6.39), parse);
    BlockEntriesOf(Code2, Slack2, Entry("Code", 5.89), Entry("Slack", 15.45), parse);
    TwoBlocks([Header, Code1, Slack1], [Header, Code2, Slack2], parse);
    Concat2(Entry("Code", 7.75), Entry("Slack", 6.39), Entry("Code", 5.89), Entry("Slack", 15.45));
  }

  lemma Concat2<T>(a: T, b: T, c: T, d: T)
    ensures [a, b] + [c, d] == [a, b, c, d]
  {
  }

  lemma Snocs<T>(a: T, b: T, c: T, d: T)
    ensures [] + [a] == [a] && [a] + [b] == [a, b] && [a, b] + [c] == [a, b, c] && [a, b, c] + [d] == [a, b, c, d]
  {
  }

  lemma AlternatingValues(e1: Entry, e2: Entry, e3: Entry, e4: Entry, t: string)
    ensures ValuesFor([e1, e2, e3, e4], t) ==
      (if e1.task == t then [e1.hours] else []) + (if e2.task == t then [e2.hours] else [])
      + (if e3.task == t then [e3.hours] else []) + (if e4.task == t then [e4.hours] else [])
  {
    Snocs(e1, e2, e3, e4);
    ValuesForSnoc([], e1, t);
    ValuesForSnoc([e1], e2, t);
    ValuesForSnoc([e1, e2], e3, t);
    ValuesForSnoc([e1, e2, e3], e4, t);
  }

  /** Two tasks alternating over two blocks: keys in first-seen order, two durations each. */
  lemma AlternatingEntries(a: string, b: string, x1: real, y1: real, x2: real, y2: real)
    requires a != b
    ensures var es := [Entry(a, x1), Entry(b, y1), Entry(a, x2), Entry(b, y2)];
      FirstSeen(es) == [a, b] && ValuesFor(es, a) == [x1, x2] && ValuesFor(es, b) == [y1, y2]
  {
    var e1, e2, e3, e4 := Entry(a, x1), Entry(b, y1), Entry(a, x2), Entry(b, y2);
    AlternatingKeys(e1, e2, e3, e4);
    AlternatingValues(e1, e2, e3, e4, a);
    AlternatingValues(e1, e2, e3, e4, b);
    assert [x1] + [] + [x2] + [] == [x1, x2];
    assert [] + [y1] + [] + [y2] == [y1, y2];
  }

  lemma AlternatingKeys(e1: Entry, e2: Entry, e3: Entry, e4: Entry)
    requires e1.task == e3.task && e2.task == e4.task && e1.task != e2.task
    ensures FirstSeen([e1, e2, e3, e4]) == [e1.task, e2.task]
  {
    Snocs(e1, e2, e3, e4);
    FirstSeenSnoc([], e1);
    FirstSeenSnoc([e1], e2);
    FirstSeenSnoc([e1, e2], e3);
    FirstSeenSnoc([e1, e2, e3], e4);
    Snocs(e1.task, e2.task, e2.task, e2.task);
  }

  lemma Pair<T>(r: seq<T>, x: T, y: T)
    requires |r| == 2 && r[0] == x && r[1] == y
    ensures r == [x, y]
  {
  }

  lemma FirstWeekLabels()
    ensures WeekLabel(1) == "Week 1" && WeekLabel(2) == "Week 2"
    ensures WeekLabels(2) == ["Week 1", "Week 2"]
  {
    assert DecimalString(1) == "1" && DecimalString(2) == "2";
    assert WeekLabel(1) == "Week " + "1" == "Week 1";
    assert WeekLabel(2) == "Week " + "2" == "Week 2";
    Pair(WeekLabels(2), "Week 1", "Week 2");
  }

  /** The export becomes one row per task in first-seen order and one column per week block. */
  lemma ExportResult(parse: string -> Option<real>)
    requires ReadsExport(parse)
    ensures BlockTable(Export, parse) ==
      Frame(["Week 1", "Week 2"], ["Code", "Slack"], [[7.75, 5.89], [6.39, 15.45]])
  {
    var es := Entries(Segment(Export), parse);
    ExportEntries(parse);
    AlternatingEntries("Code", "Slack", 7.75, 6.39, 5.89, 15.45);
    var keys, m := FirstSeen(es), Grouped(es);
    assert m["Code"] == [7.75, 5.89] && m["Slack"] == [6.39, 15.45];
    assert LongestList(keys, m) == 2;
    var padded := PadLists(m, 2);
    PaddingKeepsEntries(m["Code"], 2);
    PaddingKeepsEntries(m["Slack"], 2);
    var lists := ListsOf(keys, padded);
    Pair(lists, [7.75, 5.89], [6.39, 15.45]);
    FirstWeekLabels();
  }

  /** The export read as comma-separated text has one column named after its first line, so
      `transform` takes the week-block path. */
  lemma ExportTransform(parse: string -> Option<real>)
    requires ReadsExport(parse)
    ensures TransformResult(Some(Sheet(["Account:;Michael Hunter;;;;;;;"], [])), Some(Table(9, Export)), parse) ==
      Success(Frame(["Week 1", "Week 2"], ["Code", "Slack"], [[7.75, 5.89], [6.39, 15.45]]))
  {
    assert "Task" !in ["Account:;Michael Hunter;;;;;;;"];
    ExportResult(parse);
    WideReadSucceeds(Table(9, Export), parse);
  }

  // A file whose semicolon read has a single column

  const Marker: Row := [Some("Week #1")]
  const Foo: Row := [Some("foo")]

  /** The file `Week #1` / `foo` has no Task column, so `transform` falls back to the week
      blocks; the row `foo` opens no column 1, and `_is_task_row` raises `KeyError` on it. */
  lemma OneColumnFile(parse: string -> Option<real>)
    ensures TransformResult(Some(Sheet(["Week #1"], [])), Some(Table(1, [Marker, Foo])), parse) == Failure(KeyError)
  {
    assert "Task" !in ["Week #1"];
    assert Marker[0].value[..6] == "Week #";
    assert IsMarker(Marker);
    assert [Marker, Foo][1..] == [Foo];
    assert RowsInBlocks([Marker, Foo]) == WithoutMarkers([Foo]);
    NarrowReadRaises(Table(1, [Marker, Foo]), parse);
    RaisesIffRowInBlockFails(Table(1, [Marker, Foo]), parse);
  }

  // The simple (Task, Week, Value) file and the header-only file

  const SimpleColumns: seq<string> := ["Task", "Week", "Value"]
  const SimpleRecords: seq<Triple> :=
    [Triple("Task A", 1, 10.0), Triple("Task A", 2, 15.0), Triple("Task B", 1, 5.0), Triple("Task B", 2, 8.0)]

  lemma TaskALessTaskB()
    ensures StringLess("Task A", "Task B")
  {
    var a, b := "Task A", "Task B";
    assert a[1..][1..][1..][1..][1..] == "A" && b[1..][1..][1..][1..][1..] == "B";
  }

  lemma SimpleTaskSet()
    ensures forall y :: y in TaskKeys(SimpleRecords) <==> y in ["Task A", "Task B"]
  {
    var ts := SimpleRecords;
    assert ts[0].task == "Task A" && ts[2].task == "Task B";
  }

  /** The rows are the two tasks in sorted order. */
  lemma SimpleTaskKeys()
    ensures TaskKeys(SimpleRecords) == ["Task A", "Task B"]
  {
    StringLessIsStrictTotalOrder();
    TaskALessTaskB();
    SimpleTaskSet();
    SortedUnique(TaskKeys(SimpleRecords), ["Task A", "Task B"], StringLess);
  }

  /** The columns are the two weeks in increasing order. */
  lemma SimpleWeekKeys()
    ensures WeekKeys(SimpleRecords) == [1, 2]
  {
    var ts := SimpleRecords;
    IntLessIsStrictTotalOrder();
    forall y ensures y in WeekKeys(ts) <==> y in [1, 2] {
      assert ts[0].week == 1 && ts[1].week == 2;
    }
    SortedUnique(WeekKeys(ts), [1, 2], IntLess);
  }

  lemma TaskANotTaskB()
    ensures "Task A" != "Task B"
  {
    assert "Task A"[5] != "Task B"[5];
  }

  lemma SimpleNoDuplicates()
    ensures !HasDuplicatePair(SimpleRecords)
  {
    TaskANotTaskB();
  }

  lemma SimpleLookups()
    ensures Lookup(SimpleRecords, "Task A", 1) == Some(10.0) && Lookup(SimpleRecords, "Task A", 2) == Some(15.0)
    ensures Lookup(SimpleRecords, "Task B", 1) == Some(5.0) && Lookup(SimpleRecords, "Task B", 2) == Some(8.0)
  {
    TaskANotTaskB();
    var ts := SimpleRecords;
    assert ts[1..][1..] == [Triple("Task B", 1, 5.0), Triple("Task B", 2, 8.0)];
  }

  /** The simple file pivots to `Week 1`, `Week 2` by `Task A`, `Task B`. */
  lemma SimplePivot()
    ensures Pivot(SimpleRecords) == Success(Frame(["Week 1", "Week 2"], ["Task A", "Task B"], [[10.0, 15.0], [5.0, 8.0]]))
  {
    var ts := SimpleRecords;
    SimpleNoDuplicates();
    SimpleTaskKeys();
    SimpleWeekKeys();
    SimpleLookups();
    FirstWeekLabels();
    var f := Pivot(ts).value;
    assert |f.columns| == 2 && f.columns[0] == WeekLabel(1) && f.columns[1] == WeekLabel(2);
    Pair(f.columns, "Week 1", "Week 2");
    assert |f.cells| == 2 && |f.cells[0]| == 2 && |f.cells[1]| == 2;
    Pair(f.cells[0], 10.0, 15.0);
    Pair(f.cells[1], 5.0, 8.0);
    Pair(f.cells, [10.0, 15.0], [5.0, 8.0]);
  }

  /** `transform` on the simple file takes the simple path, whatever the semicolon read. */
  lemma SimpleTransform(semicolonRead: Option<Table>, parse: string -> Option<real>)
    ensures TransformResult(Some(Sheet(SimpleColumns, SimpleRecords)), semicolonRead, parse) ==
      Success(Frame(["Week 1", "Week 2"], ["Task A", "Task B"], [[10.0, 15.0], [5.0, 8.0]]))
  {
    SimplePivot();
    assert RequiredColumns <= set c | c in SimpleColumns;
    assert SimpleRecords != [];
  }

  /** A file with only the header line yields the empty table with columns `Task`, `Week 1`. */
  lemma HeaderOnlyTransform(semicolonRead: Option<Table>, parse: string -> Option<real>)
    ensures TransformResult(Some(Sheet(SimpleColumns, [])), semicolonRead, parse) == Success(EmptyResult)
  {
    assert RequiredColumns <= set c | c in SimpleColumns;
  }

  /** Without a `Week` column the spreadsheet transformer reports exactly that column missing. */
  lemma MissingWeekColumn(records: seq<Triple>)
    ensures SpreadsheetTransformer.Transform(Sheet(["Task", "Value"], records)) == Failure(MissingColumns({"Week"}))
  {
    var r := SpreadsheetTransformer.Transform(Sheet(["Task", "Value"], records));
    assert "Week" !in ["Task", "Value"];
    assert r.error.missing == {"Week"};
  }
}
