/** The task side of the experiment driver (`scheduler.py`): the work of a
    task class and the dataset reader that turns the lines of a dataset
    into task records. The file itself is not read here: the reader works
    on the lines already read, and `int(line.strip())` is a parameter
    giving `None` where Python raises `ValueError`. */
module Scheduler {
  import opened Domain

  const MinIndex: int := 1
  const MaxIndex: int := 10
  const LoadUnit: int := 10000

  /** `get_task_load`: the work of a task of class `index`, ten thousand
      times the square of the class. */
  function GetTaskLoad(index: int): (load: int)
    ensures load >= 0
    ensures load == 0 <==> index == 0
    ensures load % LoadUnit == 0
  {
    var square := index * index;
    assert square >= 0 && (square == 0 <==> index == 0) by {
      if index < 0 { assert square == (-index) * (-index); }
    }
    square * LoadUnit
  }

  /** Heavier classes carry strictly more work. */
  lemma TaskLoadIncreasing(a: int, b: int)
    requires 0 < a < b
    ensures GetTaskLoad(a) < GetTaskLoad(b)
  {
    assert b * b - a * a == (b - a) * (b + a);
    assert (b - a) * (b + a) > 0;
  }

  /** Classes 1 to 10 carry from 10 000 to 1 000 000 units of work. */
  lemma TaskLoadRange(index: int)
    requires MinIndex <= index <= MaxIndex
    ensures GetTaskLoad(MinIndex) <= GetTaskLoad(index) <= GetTaskLoad(MaxIndex)
    ensures GetTaskLoad(MinIndex) == 10000 && GetTaskLoad(MaxIndex) == 1000000
  {
    if MinIndex < index {
      TaskLoadIncreasing(MinIndex, index);
    }
    if index < MaxIndex {
      TaskLoadIncreasing(index, MaxIndex);
    }
  }

  // ---------------------------------------------------------------------
  // Task names

  predicate IsDigit(c: char)
  {
    '0' <= c <= '9'
  }

  predicate IsDigits(s: string)
  {
    forall k :: 0 <= k < |s| ==> IsDigit(s[k])
  }

  function DigitChar(d: nat): (c: char)
    requires d < 10
    ensures IsDigit(c)
  {
    ('0' as int + d) as char
  }

  function DigitValue(c: char): (d: nat)
    requires IsDigit(c)
    ensures d < 10 && DigitChar(d) == c
  {
    c as int - '0' as int
  }

  /** `f"{n}"` for a natural: its decimal digits, most significant first,
      without leading zeros. */
  function Decimal(n: nat): (s: string)
    ensures |s| > 0 && IsDigits(s)
  {
    if n < 10 then [DigitChar(n)] else Decimal(n / 10) + [DigitChar(n % 10)]
  }

  /** The value of a string of decimal digits. */
  function ValueOf(s: string): nat
    requires IsDigits(s)
    decreases |s|
  {
    if s == [] then 0 else ValueOf(s[..|s| - 1]) * 10 + DigitValue(s[|s| - 1])
  }

  /** Reading the decimal text of `n` gives `n` back. */
  lemma {:induction false} DecimalRoundTrip(n: nat)
    ensures ValueOf(Decimal(n)) == n
  {
    if n >= 10 {
      var s := Decimal(n);
      assert s[..|s| - 1] == Decimal(n / 10);
      DecimalRoundTrip(n / 10);
    }
  }

  /** Decimal texts of different numbers differ. */
  lemma DecimalInjective(m: nat, n: nat)
    requires Decimal(m) == Decimal(n)
    ensures m == n
  {
    DecimalRoundTrip(m);
    DecimalRoundTrip(n);
  }

  /** In `a + "-" + b` with `a` a digit string, the first dash follows `a`. */
  lemma FirstDash(a: string, b: string)
    requires IsDigits(a)
    ensures (a + "-" + b)[|a|] == '-'
    ensures forall k :: 0 <= k < |a| ==> (a + "-" + b)[k] != '-'
  {
    assert forall k :: 0 <= k < |a| ==> (a + "-" + b)[k] == a[k];
  }

  /** Two digit strings followed by a dash can be split apart again. */
  lemma SplitAtDash(a: string, b: string, c: string, d: string)
    requires IsDigits(a) && IsDigits(c) && a + "-" + b == c + "-" + d
    ensures a == c && b == d
  {
    var s := a + "-" + b;
    FirstDash(a, b);
    FirstDash(c, d);
    assert |a| == |c|;
    assert a == s[..|a|] && c == s[..|c|];
    assert b == s[|a| + 1..] && d == s[|c| + 1..];
  }

  /** `f"task-{index}-{i}"`. */
  function TaskName(index: nat, line: nat): string
  {
    "task-" + Decimal(index) + "-" + Decimal(line)
  }

  /** The name gives back the class and the line number, so names of tasks
      on different lines differ. */
  lemma TaskNameInjective(index: nat, line: nat, index': nat, line': nat)
    requires TaskName(index, line) == TaskName(index', line')
    ensures index == index' && line == line'
  {
    var s := TaskName(index, line);
    assert s[5..] == Decimal(index) + "-" + Decimal(line);
    assert s[5..] == Decimal(index') + "-" + Decimal(line');
    SplitAtDash(Decimal(index), Decimal(line), Decimal(index'), Decimal(line'));
    DecimalInjective(index, index');
    DecimalInjective(line, line');
  }

  // ---------------------------------------------------------------------
  // The dataset reader

  /** A parsed line is kept when it is an integer from 1 to 10. */
  predicate Keeps(parsed: Option<int>)
  {
    parsed.Some? && MinIndex <= parsed.value <= MaxIndex
  }

  /** The record for line `line` holding class `index`. */
  function MakeTask(line: nat, index: nat): Task
  {
    Task(line, TaskName(index, line), index, GetTaskLoad(index))
  }

  /** The tasks of `lines`: one per kept line, in line order. */
  function KeptTasks(lines: seq<string>, parse: string -> Option<int>): seq<Task>
    decreases |lines|
  {
    if lines == [] then []
    else
      var n := |lines| - 1;
      var parsed := parse(lines[n]);
      if Keeps(parsed) then KeptTasks(lines[..n], parse) + [MakeTask(n, parsed.value)]
      else KeptTasks(lines[..n], parse)
  }

  /** The 0-based numbers of the kept lines. */
  function KeptLines(lines: seq<string>, parse: string -> Option<int>): set<int>
  {
    set i | 0 <= i < |lines| && Keeps(parse(lines[i]))
  }

  /** `load_tasks` over the lines of the dataset. */
  method LoadTasks(lines: seq<string>, parse: string -> Option<int>) returns (tasks: seq<Task>)
    ensures tasks == KeptTasks(lines, parse)
  {
    tasks := [];
    for i := 0 to |lines|
      invariant tasks == KeptTasks(lines[..i], parse)
    {
      assert lines[..i + 1][..i] == lines[..i];
      var parsed := parse(lines[i]);
      match parsed {
        case None =>
          // ValueError: the line is skipped
        case Some(index) =>
          if MinIndex <= index <= MaxIndex {
            var cpuLoad := GetTaskLoad(index);
            var taskName := TaskName(index, i);
            tasks := tasks + [Task(i, taskName, index, cpuLoad)];
          }
      }
    }
    assert lines[..|lines|] == lines;
  }

  /** Every task comes from a kept line and is the record built for it: its
      id is the line number, its class the parsed value, its name and its
      work derived from both. */
  predicate RecordsOf(tasks: seq<Task>, lines: seq<string>, parse: string -> Option<int>)
  {
    forall k :: 0 <= k < |tasks| ==>
      0 <= tasks[k].id < |lines| && Keeps(parse(lines[tasks[k].id]))
      && tasks[k] == MakeTask(tasks[k].id, parse(lines[tasks[k].id]).value)
  }

  /** Ids increase strictly along the list. */
  predicate IncreasingIds(tasks: seq<Task>)
  {
    forall a, b :: 0 <= a < b < |tasks| ==> tasks[a].id < tasks[b].id
  }

  lemma {:induction false} KeptTasksSound(lines: seq<string>, parse: string -> Option<int>)
    ensures RecordsOf(KeptTasks(lines, parse), lines, parse)
    decreases |lines|
  {
    if lines != [] {
      var n := |lines| - 1;
      var prefix := KeptTasks(lines[..n], parse);
      var tasks := KeptTasks(lines, parse);
      KeptTasksSound(lines[..n], parse);
      var parsed := parse(lines[n]);
      forall k | 0 <= k < |tasks|
        ensures 0 <= tasks[k].id < |lines| && Keeps(parse(lines[tasks[k].id]))
                && tasks[k] == MakeTask(tasks[k].id, parse(lines[tasks[k].id]).value)
      {
        if k < |prefix| {
          assert tasks[k] == prefix[k];
          assert lines[..n][prefix[k].id] == lines[prefix[k].id];
        } else {
          assert tasks[k] == MakeTask(n, parsed.value);
        }
      }
    }
  }

  /** Ids increase strictly along the list, so they are distinct. */
  lemma {:induction false} KeptTasksIncreasing(lines: seq<string>, parse: string -> Option<int>)
    ensures IncreasingIds(KeptTasks(lines, parse)) && DistinctIds(KeptTasks(lines, parse))
    decreases |lines|
  {
    if lines != [] {
      var n := |lines| - 1;
      var prefix := KeptTasks(lines[..n], parse);
      var tasks := KeptTasks(lines, parse);
      KeptTasksIncreasing(lines[..n], parse);
      KeptTasksSound(lines[..n], parse);
      forall a, b | 0 <= a < b < |tasks|
        ensures tasks[a].id < tasks[b].id
      {
        assert tasks[a] == prefix[a];
        if b < |prefix| {
          assert tasks[b] == prefix[b];
        } else {
          assert tasks[b].id == n;
        }
      }
    }
  }

  /** A line becomes a task exactly when it parses to an integer from 1 to 10. */
  lemma {:induction false} KeptTasksIds(lines: seq<string>, parse: string -> Option<int>)
    ensures Ids(KeptTasks(lines, parse)) == KeptLines(lines, parse)
    decreases |lines|
  {
    if lines != [] {
      var n := |lines| - 1;
      var prefix := KeptTasks(lines[..n], parse);
      var tasks := KeptTasks(lines, parse);
      KeptTasksIds(lines[..n], parse);
      assert forall i :: 0 <= i < n ==> lines[..n][i] == lines[i];
      forall id | id in Ids(tasks)
        ensures id in KeptLines(lines, parse)
      {
        var k :| 0 <= k < |tasks| && tasks[k].id == id;
        if k < |prefix| {
          assert prefix[k].id == id;
        }
      }
      forall id | id in KeptLines(lines, parse)
        ensures id in Ids(tasks)
      {
        if id < n {
          assert id in KeptLines(lines[..n], parse);
          var k :| 0 <= k < |prefix| && prefix[k].id == id;
          assert tasks[k].id == id;
        } else {
          assert tasks[|tasks| - 1].id == id;
        }
      }
    }
  }

  /** Tasks on different lines have different names. */
  lemma KeptTasksDistinctNames(lines: seq<string>, parse: string -> Option<int>)
    ensures var tasks := KeptTasks(lines, parse);
            forall a, b :: 0 <= a < b < |tasks| ==> tasks[a].name != tasks[b].name
  {
    var tasks := KeptTasks(lines, parse);
    KeptTasksSound(lines, parse);
    KeptTasksIncreasing(lines, parse);
    forall a, b | 0 <= a < b < |tasks|
      ensures tasks[a].name != tasks[b].name
    {
      if tasks[a].name == tasks[b].name {
        TaskNameInjective(tasks[a].index, tasks[a].id, tasks[b].index, tasks[b].id);
      }
    }
  }

  /** Task ids are positions in the list only while no line has been
      skipped: a skipped line before a kept one shifts every later id past
      its position. */
  lemma SkippedLineShiftsIds(lines: seq<string>, parse: string -> Option<int>, skipped: nat, kept: nat)
    requires skipped < kept < |lines|
    requires !Keeps(parse(lines[skipped])) && Keeps(parse(lines[kept]))
    ensures var tasks := KeptTasks(lines, parse);
            exists k :: 0 <= k < |tasks| && tasks[k].id != k
  {
    var tasks := KeptTasks(lines, parse);
    KeptTasksIds(lines, parse);
    KeptTasksIncreasing(lines, parse);
    assert kept in KeptLines(lines, parse);
    var p :| 0 <= p < |tasks| && tasks[p].id == kept;
    if tasks[p].id == p {
      assert skipped !in Ids(tasks);
      assert tasks[skipped].id != skipped;
    }
  }
}
