/** The wide "task x week" table both transformers return: row labels (the `Task` index),
    column labels and one row of cells per task. */
module Frames {
  import opened Wrappers
  import opened Text

  datatype Frame = Frame(columns: seq<string>, index: seq<string>, cells: seq<seq<real>>)

  /** Every row label has a row of cells and every row has one cell per column. */
  predicate WellFormed(f: Frame) {
    |f.cells| == |f.index| && forall i | 0 <= i < |f.cells| :: |f.cells[i]| == |f.columns|
  }

  /** pandas' `DataFrame.empty`: no rows or no columns. */
  predicate IsEmpty(f: Frame) {
    |f.index| == 0 || |f.columns| == 0
  }

  /** The table returned when there is nothing to show: no rows, and the two columns
      `Task` and `Week 1`. */
  const EmptyResult: Frame := Frame(["Task", "Week 1"], [], [])

  /** The label `f'Week {w}'` of week value `w`. */
  function WeekLabel(w: int): (r: string)
  {
    "Week " + DecimalString(w)
  }

  /** The labels `Week 1` .. `Week n`. */
  function WeekLabels(n: nat): (r: seq<string>)
    ensures |r| == n && forall i | 0 <= i < n :: r[i] == WeekLabel(i + 1)
  {
    seq(n, i => WeekLabel(i + 1))
  }

  lemma WeekLabelInjective(a: int, b: int)
    requires WeekLabel(a) == WeekLabel(b)
    ensures a == b
  {
    var p := "Week ";
    assert DecimalString(a) == WeekLabel(a)[|p|..] == WeekLabel(b)[|p|..] == DecimalString(b);
    DecimalStringInjective(a, b);
  }

  /** Distinct week numbers give distinct column labels. */
  lemma WeekLabelsDistinct(n: nat)
    ensures forall i, j | 0 <= i < j < n :: WeekLabels(n)[i] != WeekLabels(n)[j]
  {
    forall i, j | 0 <= i < j < n
      ensures WeekLabels(n)[i] != WeekLabels(n)[j]
    {
      if WeekLabels(n)[i] == WeekLabels(n)[j] {
        WeekLabelInjective(i + 1, j + 1);
      }
    }
  }

  /** Position of the first occurrence of `x` in `s`. */
  function IndexOf<T(==)>(s: seq<T>, x: T): (i: nat)
    requires x in s
    ensures i < |s| && s[i] == x && forall j | 0 <= j < i :: s[j] != x
  {
    if s[0] == x then 0 else 1 + IndexOf(s[1..], x)
  }

  /** pandas' `f.loc[row, col]`: the cell of row label `row` and column label `col`. */
  function At(f: Frame, row: string, col: string): Option<real>
    requires WellFormed(f)
  {
    if row in f.index && col in f.columns then
      Some(f.cells[IndexOf(f.index, row)][IndexOf(f.columns, col)])
    else None
  }
}
