/** `SpreadsheetTransformer.transform`: check the required columns, then pivot
    (Task, Week, Value) records into one row per task and one column per week. */
module SpreadsheetTransformer {
  import opened Wrappers
  import opened Ordering
  import opened Frames

  /** The Task, Week and Value cells of one input record. */
  datatype Triple = Triple(task: string, week: int, value: real)

  /** The input as the comma-separated reader yields it: the header's column names and,
      for each record, its Task, Week and Value cells (meaningful when those columns exist). */
  datatype Sheet = Sheet(columns: seq<string>, records: seq<Triple>)

  datatype TransformError = MissingColumns(missing: set<string>) | DuplicateEntries

  const RequiredColumns: set<string> := {"Task", "Week", "Value"}

  /** The distinct Task values, in the order pandas sorts them. */
  function TaskKeys(ts: seq<Triple>): (r: seq<string>)
    ensures StrictlySorted(r, StringLess)
    ensures forall t :: t in r <==> exists i | 0 <= i < |ts| :: ts[i].task == t
  {
    StringLessIsStrictTotalOrder();
    var tasks := seq(|ts|, i requires 0 <= i < |ts| => ts[i].task);
    assert forall i | 0 <= i < |ts| :: tasks[i] == ts[i].task;
    SortedDistinct(tasks, StringLess)
  }

  /** The distinct Week values, in increasing order. */
  function WeekKeys(ts: seq<Triple>): (r: seq<int>)
    ensures StrictlySorted(r, IntLess)
    ensures forall w :: w in r <==> exists i | 0 <= i < |ts| :: ts[i].week == w
  {
    IntLessIsStrictTotalOrder();
    var weeks := seq(|ts|, i requires 0 <= i < |ts| => ts[i].week);
    assert forall i | 0 <= i < |ts| :: weeks[i] == ts[i].week;
    SortedDistinct(weeks, IntLess)
  }

  /** Two records name the same (Task, Week) cell: pandas' pivot refuses to reshape. */
  predicate HasDuplicatePair(ts: seq<Triple>) {
    exists i, j | 0 <= i < j < |ts| :: ts[i].task == ts[j].task && ts[i].week == ts[j].week
  }

  /** The Value of the first record for task `t` in week `w`, if any. */
  function Lookup(ts: seq<Triple>, t: string, w: int): (r: Option<real>)
    ensures r.None? <==> forall i | 0 <= i < |ts| :: !(ts[i].task == t && ts[i].week == w)
    ensures r.Some? ==> exists i | 0 <= i < |ts| :: ts[i].task == t && ts[i].week == w && ts[i].value == r.value
  {
    if ts == [] then None
    else if ts[0].task == t && ts[0].week == w then Some(ts[0].value)
    else
      var r := Lookup(ts[1..], t, w);
      assert forall i | 1 <= i < |ts| :: ts[i] == ts[1..][i - 1];
      r
  }

  /** `df.pivot(index='Task', columns='Week', values='Value').fillna(0)` followed by the
      relabelling `f'Week {col}'`. */
  function Pivot(ts: seq<Triple>): (r: Result<Frame, TransformError>)
    ensures r.Failure? <==> HasDuplicatePair(ts)
    ensures r.Failure? ==> r.error == DuplicateEntries
    ensures r.Success? ==> WellFormed(r.value)
  {
    if HasDuplicatePair(ts) then Failure(DuplicateEntries)
    else
      var tasks := TaskKeys(ts);
      var weeks := WeekKeys(ts);
      var columns := seq(|weeks|, j requires 0 <= j < |weeks| => WeekLabel(weeks[j]));
      var cells := seq(|tasks|, i requires 0 <= i < |tasks| =>
        seq(|weeks|, j requires 0 <= j < |weeks| => Lookup(ts, tasks[i], weeks[j]).GetOr(0.0)));
      Success(Frame(columns, tasks, cells))
  }

  /** `SpreadsheetTransformer.transform` on an already-read sheet. */
  function Transform(sheet: Sheet): (r: Result<Frame, TransformError>)
    ensures (r.Failure? && r.error.MissingColumns?) <==> !(RequiredColumns <= set c | c in sheet.columns)
    ensures r.Failure? && r.error.MissingColumns? ==>
      forall c :: c in r.error.missing <==> c in RequiredColumns && c !in sheet.columns
    ensures RequiredColumns <= (set c | c in sheet.columns) ==> r == Pivot(sheet.records)
  {
    var present := set c | c in sheet.columns;
    if !(RequiredColumns <= present) then Failure(MissingColumns(RequiredColumns - present))
    else Pivot(sheet.records)
  }

  /** Columns beyond Task, Week and Value pass the subset check and do not affect the result.
      This holds by construction: a `Sheet` keeps only the Task, Week and Value cells of its
      records, so the lemma adds to `Transform`'s contract only that the header plays no
      further part. */
  lemma ExtraColumnsIgnored(a: Sheet, b: Sheet)
    requires RequiredColumns <= (set c | c in a.columns) && RequiredColumns <= (set c | c in b.columns)
    requires a.records == b.records
    ensures Transform(a) == Transform(b) && Transform(a).Success? == !HasDuplicatePair(a.records)
  {
  }

  // Properties of the pivot

  /** One row per distinct Task value, in sorted order. */
  lemma PivotRows(ts: seq<Triple>)
    requires Pivot(ts).Success?
    ensures var f := Pivot(ts).value;
      && StrictlySorted(f.index, StringLess)
      && forall t :: t in f.index <==> exists i | 0 <= i < |ts| :: ts[i].task == t
  {
  }

  /** One column per distinct Week value, labelled `Week <value>`, in increasing week order;
      extra input columns never appear. */
  lemma PivotColumns(ts: seq<Triple>)
    requires Pivot(ts).Success?
    ensures var f := Pivot(ts).value;
      && |f.columns| == |WeekKeys(ts)|
      && (forall j | 0 <= j < |f.columns| :: f.columns[j] == WeekLabel(WeekKeys(ts)[j]))
      && (forall i, j | 0 <= i < j < |f.columns| :: f.columns[i] != f.columns[j])
      && (forall w :: WeekLabel(w) in f.columns <==> exists i | 0 <= i < |ts| :: ts[i].week == w)
      && (forall c | c in f.columns :: exists w :: c == WeekLabel(w))
  {
    var f := Pivot(ts).value;
    var weeks := WeekKeys(ts);
    forall i, j | 0 <= i < j < |f.columns|
      ensures f.columns[i] != f.columns[j]
    {
      assert IntLess(weeks[i], weeks[j]);
      if f.columns[i] == f.columns[j] {
        WeekLabelInjective(weeks[i], weeks[j]);
      }
    }
    forall w
      ensures WeekLabel(w) in f.columns <==> w in weeks
    {
      if WeekLabel(w) in f.columns {
        var j :| 0 <= j < |f.columns| && f.columns[j] == WeekLabel(w);
        WeekLabelInjective(w, weeks[j]);
      }
      if w in weeks {
        var j :| 0 <= j < |weeks| && weeks[j] == w;
        assert f.columns[j] == WeekLabel(w);
      }
    }
  }

  /** Where the cell of row label `t` and column `Week <w>` sits in the pivot. */
  lemma PivotCellAt(ts: seq<Triple>, t: string, w: int)
    requires Pivot(ts).Success?
    requires t in TaskKeys(ts) && w in WeekKeys(ts)
    ensures At(Pivot(ts).value, t, WeekLabel(w)) == Some(Lookup(ts, t, w).GetOr(0.0))
  {
    var f := Pivot(ts).value;
    var weeks := WeekKeys(ts);
    PivotColumns(ts);
    var q :| 0 <= q < |weeks| && weeks[q] == w;
    assert f.columns[q] == WeekLabel(w);
    var j := IndexOf(f.columns, WeekLabel(w));
    WeekLabelInjective(weeks[j], w);
    var i := IndexOf(f.index, t);
    assert f.cells[i][j] == Lookup(ts, t, w).GetOr(0.0);
  }

  /** Every record's Value lands in the cell of its task and week. */
  lemma PivotPresentPairs(ts: seq<Triple>)
    requires Pivot(ts).Success?
    ensures forall k | 0 <= k < |ts| :: At(Pivot(ts).value, ts[k].task, WeekLabel(ts[k].week)) == Some(ts[k].value)
  {
    forall k | 0 <= k < |ts|
      ensures At(Pivot(ts).value, ts[k].task, WeekLabel(ts[k].week)) == Some(ts[k].value)
    {
      PresentPair(ts, k);
    }
  }

  lemma PresentPair(ts: seq<Triple>, k: nat)
    requires Pivot(ts).Success? && k < |ts|
    ensures At(Pivot(ts).value, ts[k].task, WeekLabel(ts[k].week)) == Some(ts[k].value)
  {
    var t, w := ts[k].task, ts[k].week;
    assert t in TaskKeys(ts) && w in WeekKeys(ts);
    PivotCellAt(ts, t, w);
    var i :| 0 <= i < |ts| && ts[i].task == t && ts[i].week == w && ts[i].value == Lookup(ts, t, w).value;
    assert !(i < k || k < i);
  }

  /** A task and week that never occur together get the fill value 0. */
  lemma PivotAbsentPairs(ts: seq<Triple>, t: string, w: int)
    requires Pivot(ts).Success?
    requires (exists i | 0 <= i < |ts| :: ts[i].task == t) && (exists i | 0 <= i < |ts| :: ts[i].week == w)
    requires forall i | 0 <= i < |ts| :: !(ts[i].task == t && ts[i].week == w)
    ensures At(Pivot(ts).value, t, WeekLabel(w)) == Some(0.0)
  {
    PivotCellAt(ts, t, w);
  }

  /** A sheet without records pivots to a table with no rows and no columns. */
  lemma PivotOfNothing(ts: seq<Triple>)
    requires ts == []
    ensures Pivot(ts).Success? && Pivot(ts).value.index == [] && Pivot(ts).value.columns == []
  {
  }

  /** The pivot has rows exactly when there are records. */
  lemma {:induction false} PivotEmptyIffNoRecords(ts: seq<Triple>)
    requires Pivot(ts).Success?
    ensures IsEmpty(Pivot(ts).value) <==> ts == []
  {
    if ts != [] {
      assert ts[0].task in TaskKeys(ts);
      assert ts[0].week in WeekKeys(ts);
    }
  }
}
