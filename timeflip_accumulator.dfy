/** The task accumulator of `TimeflipTransformer.transform`: an insertion-ordered
    dictionary from task name to the list of durations read for it, and the padding
    that brings every list to the same length. */
module TimeflipAccumulator {
  import opened Wrappers
  import opened Text
  import opened TimeflipRows

  /** One qualifying task row: its cleaned name and its duration. */
  datatype Entry = Entry(task: string, hours: real)

  /** `float(row[2])`, with 0.0 when parsing fails; the parser is a parameter. */
  function Hours(row: Row, parse: string -> Option<real>): real
    requires Cell(row, 2).Some?
  {
    parse(Cell(row, 2).value).GetOr(0.0)
  }

  /** The duration is the parsed time cell when it parses, and 0.0 when it does not. */
  lemma HoursOf(row: Row, parse: string -> Option<real>)
    requires Cell(row, 2).Some?
    ensures parse(Cell(row, 2).value).Some? ==> Hours(row, parse) == parse(Cell(row, 2).value).value
    ensures parse(Cell(row, 2).value).None? ==> Hours(row, parse) == 0.0
  {
  }

  /** The entry a row contributes: one for a task row with a non-empty name, none otherwise.
      Its name is stripped, non-empty and never the header's `Task`. */
  function RowEntries(row: Row, parse: string -> Option<real>): (r: seq<Entry>)
  {
    if IsTaskRow(row) && CleanTaskName(row) != "" then [Entry(CleanTaskName(row), Hours(row, parse))] else []
  }

  /** A row contributes at most one entry, exactly when it is a task row with a non-empty
      name; the entry carries the stripped name, never the header's `Task`, and the row's hours. */
  lemma RowEntryOf(row: Row, parse: string -> Option<real>)
    ensures |RowEntries(row, parse)| <= 1
    ensures RowEntries(row, parse) != [] <==> IsTaskRow(row) && CleanTaskName(row) != ""
    ensures RowEntries(row, parse) != [] ==>
      var e := RowEntries(row, parse)[0];
      e.task == CleanTaskName(row) && e.task != "" && e.task != "Task" && Trim(e.task) == e.task &&
      e.hours == Hours(row, parse)
  {
  }

  function BlockEntries(rows: seq<Row>, parse: string -> Option<real>): seq<Entry> {
    if rows == [] then []
    else BlockEntries(rows[..|rows| - 1], parse) + RowEntries(rows[|rows| - 1], parse)
  }

  /** The entries of all week blocks, block after block, in row order. */
  function Entries(blocks: seq<seq<Row>>, parse: string -> Option<real>): seq<Entry> {
    if blocks == [] then []
    else Entries(blocks[..|blocks| - 1], parse) + BlockEntries(blocks[|blocks| - 1], parse)
  }

  lemma BlockEntriesPrefix(rows: seq<Row>, i: nat, parse: string -> Option<real>)
    requires i < |rows|
    ensures BlockEntries(rows[..i + 1], parse) == BlockEntries(rows[..i], parse) + RowEntries(rows[i], parse)
  {
    assert rows[..i + 1][..i] == rows[..i];
  }

  lemma EntriesPrefix(blocks: seq<seq<Row>>, i: nat, parse: string -> Option<real>)
    requires i < |blocks|
    ensures Entries(blocks[..i + 1], parse) == Entries(blocks[..i], parse) + BlockEntries(blocks[i], parse)
  {
    assert blocks[..i + 1][..i] == blocks[..i];
  }

  predicate Distinct<T(==)>(s: seq<T>) {
    forall i, j | 0 <= i < j < |s| :: s[i] != s[j]
  }

  /** The task names of `es`, each once, in the order they first occur. */
  function FirstSeen(es: seq<Entry>): (r: seq<string>)
    ensures Distinct(r)
    ensures forall t :: t in r <==> exists k | 0 <= k < |es| :: es[k].task == t
  {
    if es == [] then []
    else
      var init := es[..|es| - 1];
      var seen := FirstSeen(init);
      assert forall k | 0 <= k < |init| :: init[k] == es[k];
      if es[|es| - 1].task in seen then seen else seen + [es[|es| - 1].task]
  }

  /** The durations of task `t`, in the order its entries occur. */
  function ValuesFor(es: seq<Entry>, t: string): seq<real> {
    if es == [] then []
    else ValuesFor(es[..|es| - 1], t) + (if es[|es| - 1].task == t then [es[|es| - 1].hours] else [])
  }

  /** The dictionary the loop builds: each first-seen task mapped to its durations. */
  function Grouped(es: seq<Entry>): (m: map<string, seq<real>>)
    ensures forall t :: t in m <==> t in FirstSeen(es)
  {
    map t | t in FirstSeen(es) :: ValuesFor(es, t)
  }

  lemma {:induction false} ValuesForUnseen(es: seq<Entry>, t: string)
    requires t !in FirstSeen(es)
    ensures ValuesFor(es, t) == []
  {
    if es != [] {
      var init := es[..|es| - 1];
      assert forall k | 0 <= k < |init| :: init[k] == es[k];
      ValuesForUnseen(init, t);
    }
  }

  lemma FirstSeenSnoc(es: seq<Entry>, e: Entry)
    ensures FirstSeen(es + [e]) == if e.task in FirstSeen(es) then FirstSeen(es) else FirstSeen(es) + [e.task]
  {
    assert (es + [e])[..|es|] == es;
  }

  lemma ValuesForSnoc(es: seq<Entry>, e: Entry, t: string)
    ensures ValuesFor(es + [e], t) == ValuesFor(es, t) + (if e.task == t then [e.hours] else [])
  {
    assert (es + [e])[..|es|] == es;
  }

  /** Recording entry `e` appends its duration to the list of its task, creating the list
      if the task is new, and changes no other list. */
  lemma GroupedSnoc(es: seq<Entry>, e: Entry)
    ensures Grouped(es + [e]) == Grouped(es)[e.task := ValuesFor(es, e.task) + [e.hours]]
  {
    FirstSeenSnoc(es, e);
    var before := Grouped(es);
    var after, updated := Grouped(es + [e]), before[e.task := ValuesFor(es, e.task) + [e.hours]];
    assert after.Keys == updated.Keys;
    forall t | t in after
      ensures after[t] == updated[t]
    {
      ValuesForSnoc(es, e, t);
      if t != e.task {
        assert ValuesFor(es, t) + [] == ValuesFor(es, t);
      }
    }
  }

  /** `max(len(times) for times in all_tasks.values())`. */
  function LongestList(keys: seq<string>, m: map<string, seq<real>>): (n: nat)
    requires keys != [] && forall k | k in keys :: k in m
    ensures exists i | 0 <= i < |keys| :: |m[keys[i]]| == n
    ensures forall i | 0 <= i < |keys| :: |m[keys[i]]| <= n
  {
    if |keys| == 1 then |m[keys[0]]|
    else
      var rest := LongestList(keys[1..], m);
      assert forall i | 1 <= i < |keys| :: keys[i] == keys[1..][i - 1];
      if |m[keys[0]]| >= rest then |m[keys[0]]| else rest
  }

  function Zeros(n: nat): (r: seq<real>)
    ensures |r| == n && forall k | 0 <= k < n :: r[k] == 0.0
  {
    seq(n, _ => 0.0)
  }

  /** The list after `while len(xs) < n: xs.append(0.0)`. */
  function PadRight(xs: seq<real>, n: nat): (r: seq<real>)
    ensures |r| == if |xs| < n then n else |xs|
    ensures r[..|xs|] == xs
    ensures forall k | |xs| <= k < |r| :: r[k] == 0.0
  {
    if |xs| < n then xs + Zeros(n - |xs|) else xs
  }

  /** Every list of `m` padded to `n` entries. */
  function PadLists(m: map<string, seq<real>>, n: nat): (r: map<string, seq<real>>)
    ensures r.Keys == m.Keys && forall t | t in r :: r[t] == PadRight(m[t], n)
  {
    map t | t in m :: PadRight(m[t], n)
  }

  /** The rows `pd.DataFrame.from_dict(m, orient='index')` builds, one per key in order. */
  function ListsOf(keys: seq<string>, m: map<string, seq<real>>): (r: seq<seq<real>>)
    requires forall k | k in keys :: k in m
    ensures |r| == |keys| && forall i | 0 <= i < |keys| :: r[i] == m[keys[i]]
  {
    seq(|keys|, i requires 0 <= i < |keys| => m[keys[i]])
  }

  /** The dictionary `all_tasks`: keys in insertion order, each with its list. */
  class TaskDurations {
    var order: seq<string>
    var durations: map<string, seq<real>>

    ghost predicate Valid()
      reads this
    {
      Distinct(order) && forall t :: t in durations <==> t in order
    }

    constructor ()
      ensures Valid() && order == [] && durations == map[]
    {
      order := [];
      durations := map[];
    }

    /** `all_tasks[name] = []` for a name not yet present. */
    method AddTask(name: string)
      requires Valid() && name !in durations
      modifies this
      ensures Valid()
      ensures order == old(order) + [name] && durations == old(durations)[name := []]
    {
      order := order + [name];
      durations := durations[name := []];
    }

    /** `all_tasks[name].append(v)`. */
    method Append(name: string, v: real)
      requires Valid() && name in durations
      modifies this
      ensures Valid()
      ensures order == old(order) && durations == old(durations)[name := old(durations)[name] + [v]]
    {
      durations := durations[name := durations[name] + [v]];
    }

    /** The length of the longest list. */
    function Longest(): (n: nat)
      reads this
      requires Valid() && order != []
      ensures exists t | t in durations :: |durations[t]| == n
      ensures forall t | t in durations :: |durations[t]| <= n
    {
      var n := LongestList(order, durations);
      assert forall t | t in durations :: exists i | 0 <= i < |order| :: order[i] == t;
      n
    }

    /** `while len(self[task]) < width: self[task].append(0.0)`. */
    method PadList(task: string, width: nat)
      requires Valid() && task in durations
      modifies this
      ensures Valid() && order == old(order)
      ensures durations == old(durations)[task := PadRight(old(durations)[task], width)]
    {
      ghost var before := durations[task];
      while |durations[task]| < width
        invariant Valid() && order == old(order)
        invariant durations == old(durations)[task := durations[task]]
        invariant durations[task] == before + Zeros(|durations[task]| - |before|)
        invariant |before| <= |durations[task]| <= if |before| < width then width else |before|
        decreases width - |durations[task]|
      {
        durations := durations[task := durations[task] + [0.0]];
      }
      assert |before| >= width ==> Zeros(0) == [];
    }

    /** Pad every list with trailing zeros until it has `width` entries. */
    method PadTo(width: nat)
      requires Valid()
      modifies this
      ensures Valid() && order == old(order)
      ensures durations == PadLists(old(durations), width)
    {
      for i := 0 to |order|
        invariant Valid() && order == old(order) && durations.Keys == old(durations).Keys
        invariant forall j | 0 <= j < i :: durations[order[j]] == PadRight(old(durations)[order[j]], width)
        invariant forall j | i <= j < |order| :: durations[order[j]] == old(durations)[order[j]]
      {
        ghost var before := durations;
        PadList(order[i], width);
        PadStep(order, old(durations), before, durations, i, width);
      }
      PadDone(order, old(durations), durations, width);
    }
  }

  /** Padding the list of key `i` pads it and leaves the other keys' lists as they were. */
  lemma PadStep(order: seq<string>, start: map<string, seq<real>>, before: map<string, seq<real>>,
                after: map<string, seq<real>>, i: nat, width: nat)
    requires Distinct(order) && i < |order| && forall t :: t in before <==> t in order
    requires start.Keys == before.Keys
    requires forall j | 0 <= j < i :: before[order[j]] == PadRight(start[order[j]], width)
    requires forall j | i <= j < |order| :: before[order[j]] == start[order[j]]
    requires after == before[order[i] := PadRight(before[order[i]], width)]
    ensures forall j | 0 <= j < i + 1 :: after[order[j]] == PadRight(start[order[j]], width)
    ensures forall j | i + 1 <= j < |order| :: after[order[j]] == start[order[j]]
  {
    assert forall j | 0 <= j < |order| && j != i :: order[j] != order[i];
  }

  /** Once every key's list is padded, the dictionary is `PadLists` of the one it started from. */
  lemma PadDone(order: seq<string>, start: map<string, seq<real>>, after: map<string, seq<real>>, width: nat)
    requires forall t :: t in after <==> t in order
    requires after.Keys == start.Keys
    requires forall j | 0 <= j < |order| :: after[order[j]] == PadRight(start[order[j]], width)
    ensures after == PadLists(start, width)
  {
    assert forall t | t in after :: exists j | 0 <= j < |order| :: order[j] == t;
  }
}
