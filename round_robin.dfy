/** Round robin (`rr_algo.py`): the i-th task goes to the VM at position
    `i mod n` of the fleet, and `get_final_makespan` reports the largest
    per-VM load of a solution. */
module RoundRobin {
  import opened Domain
  import opened Stats
  import opened Workload

  /** The assignment the round-robin loop builds: the tasks are taken in
      order and each writes its id's entry, so for a repeated id the last
      occurrence is the one that stays. */
  function Cyclic(tasks: seq<Task>, vms: seq<VM>): (a: map<int, string>)
    requires |tasks| > 0 ==> |vms| > 0
    decreases |tasks|
  {
    if tasks == [] then map[]
    else
      var n := |tasks| - 1;
      Cyclic(tasks[..n], vms)[tasks[n].id := vms[n % |vms|].name]
  }

  /** `round_robin_algorithm`: `None` stands for the `ZeroDivisionError`
      that `i % num_vms` raises for the first task when the fleet is empty;
      otherwise the dictionary the loop builds is the round-robin
      assignment. */
  method RoundRobinAlgorithm(tasks: seq<Task>, vms: seq<VM>) returns (finalSolution: Option<map<int, string>>)
    requires DistinctNames(vms)
    ensures finalSolution.None? <==> |tasks| > 0 && |vms| == 0
    ensures finalSolution.Some? ==> finalSolution.value == Cyclic(tasks, vms)
  {
    var vmNames := VmNameList(vms);
    var numVms := |vmNames|;
    var solution := map[];
    for i := 0 to |tasks|
      invariant numVms == 0 ==> i == 0
      invariant numVms > 0 ==> solution == Cyclic(tasks[..i], vms)
    {
      if numVms == 0 {
        return None;
      }
      var targetVmIndex := i % numVms;
      var targetVmName := vmNames[targetVmIndex];
      solution := solution[tasks[i].id := targetVmName];
      assert tasks[..i + 1][..i] == tasks[..i];
    }
    if numVms == 0 {
      return Some(map[]);
    }
    assert tasks[..|tasks|] == tasks;
    finalSolution := Some(solution);
  }

  /** The keys are exactly the task ids; no tasks give the empty dictionary. */
  lemma {:induction false} CyclicKeys(tasks: seq<Task>, vms: seq<VM>)
    requires |tasks| > 0 ==> |vms| > 0
    ensures Cyclic(tasks, vms).Keys == Ids(tasks)
    decreases |tasks|
  {
    if tasks != [] {
      var n := |tasks| - 1;
      CyclicKeys(tasks[..n], vms);
      assert Ids(tasks) == Ids(tasks[..n]) + {tasks[n].id} by {
        forall id | id in Ids(tasks)
          ensures id in Ids(tasks[..n]) + {tasks[n].id}
        {
          var i :| 0 <= i < |tasks| && tasks[i].id == id;
          if i < n {
            assert tasks[..n][i].id == id;
          }
        }
        forall id | id in Ids(tasks[..n])
          ensures id in Ids(tasks)
        {
          var i :| 0 <= i < n && tasks[..n][i].id == id;
          assert tasks[i].id == id;
        }
      }
    }
  }

  /** Every value is the name of a VM of the fleet. */
  lemma {:induction false} CyclicValues(tasks: seq<Task>, vms: seq<VM>)
    requires |tasks| > 0 ==> |vms| > 0
    ensures forall id :: id in Cyclic(tasks, vms) ==> Cyclic(tasks, vms)[id] in Names(vms)
    decreases |tasks|
  {
    if tasks != [] {
      CyclicValues(tasks[..|tasks| - 1], vms);
    }
  }

  /** The result is a total assignment. */
  lemma CyclicTotal(tasks: seq<Task>, vms: seq<VM>)
    requires |tasks| > 0 ==> |vms| > 0
    ensures Total(Cyclic(tasks, vms), tasks, vms)
  {
    CyclicKeys(tasks, vms);
    CyclicValues(tasks, vms);
  }

  /** The task at position i is on VM `i mod n`, unless a later task has
      the same id and overwrote its entry. */
  lemma {:induction false} CyclicValue(tasks: seq<Task>, vms: seq<VM>, i: nat)
    requires |vms| > 0 && i < |tasks|
    requires forall j :: i < j < |tasks| ==> tasks[j].id != tasks[i].id
    ensures tasks[i].id in Cyclic(tasks, vms)
    ensures Cyclic(tasks, vms)[tasks[i].id] == vms[i % |vms|].name
    decreases |tasks|
  {
    var n := |tasks| - 1;
    if i < n {
      assert forall j :: i < j < n ==> tasks[..n][j].id != tasks[..n][i].id;
      CyclicValue(tasks[..n], vms, i);
    }
  }

  /** With distinct ids, every task is on VM `i mod n`. */
  lemma CyclicOfDistinct(tasks: seq<Task>, vms: seq<VM>)
    requires |vms| > 0 && DistinctIds(tasks)
    ensures forall i :: 0 <= i < |tasks| ==>
      tasks[i].id in Cyclic(tasks, vms) && Cyclic(tasks, vms)[tasks[i].id] == vms[i % |vms|].name
  {
    forall i | 0 <= i < |tasks|
      ensures tasks[i].id in Cyclic(tasks, vms) && Cyclic(tasks, vms)[tasks[i].id] == vms[i % |vms|].name
    {
      CyclicValue(tasks, vms, i);
    }
  }

  // ---------------------------------------------------------------------
  // Balance

  /** The number of positions in `tasks` whose task `a` puts on `name`. */
  function Assigned(a: map<int, string>, tasks: seq<Task>, name: string): nat
    decreases |tasks|
  {
    if tasks == [] then 0
    else
      var n := |tasks| - 1;
      Assigned(a, tasks[..n], name) + (if tasks[n].id in a && a[tasks[n].id] == name then 1 else 0)
  }

  /** The number of naturals below `count` congruent to `j` modulo `n`. */
  function Residues(count: nat, n: nat, j: nat): nat
    requires n > 0
  {
    if count == 0 then 0 else Residues(count - 1, n, j) + (if (count - 1) % n == j then 1 else 0)
  }

  lemma MulSign(d: int, n: int)
    requires n > 0
    ensures d >= 1 ==> d * n >= n
    ensures d <= -1 ==> d * n <= -n
  {
    if d >= 1 {
      assert d * n - n == (d - 1) * n;
    } else if d <= -1 {
      assert d * n + n == (d + 1) * n;
    }
  }

  /** Quotient and remainder are unique. */
  lemma DivModUnique(x: int, n: int, q: int, r: int)
    requires n > 0 && 0 <= r < n && x == q * n + r
    ensures x / n == q && x % n == r
  {
    var q0, r0 := x / n, x % n;
    assert x == q0 * n + r0;
    var d := q - q0;
    assert d * n == r0 - r;
    MulSign(d, n);
  }

  /** Counting one further: the remainder wraps at `n`, carrying into the
      quotient. */
  lemma DivModStep(x: nat, n: nat)
    requires n > 0
    ensures (x + 1) % n == if x % n == n - 1 then 0 else x % n + 1
    ensures (x + 1) / n == if x % n == n - 1 then x / n + 1 else x / n
  {
    var q, r := x / n, x % n;
    assert x == q * n + r;
    if r == n - 1 {
      DivModUnique(x + 1, n, q + 1, 0);
    } else {
      DivModUnique(x + 1, n, q, r + 1);
    }
  }

  /** Of the first `count` naturals, `count / n` full rounds hit every
      residue and the last partial round hits the residues below
      `count mod n` once more. */
  lemma {:induction false} ResiduesCount(count: nat, n: nat, j: nat)
    requires n > 0 && j < n
    ensures Residues(count, n, j) == count / n + (if j < count % n then 1 else 0)
  {
    if count > 0 {
      var x := count - 1;
      ResiduesCount(x, n, j);
      DivModStep(x, n);
      var q, r := x / n, x % n;
      assert Residues(count, n, j) == q + (if j < r then 1 else 0) + (if r == j then 1 else 0);
      if r == n - 1 {
        assert count / n == q + 1 && count % n == 0;
      } else {
        assert count / n == q && count % n == r + 1;
      }
    }
  }

  /** Under round robin with distinct ids, VM j gets the tasks at the
      positions congruent to j. */
  lemma {:induction false} AssignedIsResidues(a: map<int, string>, tasks: seq<Task>, vms: seq<VM>, j: nat)
    requires DistinctNames(vms) && |vms| > 0 && j < |vms|
    requires forall i :: 0 <= i < |tasks| ==> tasks[i].id in a && a[tasks[i].id] == vms[i % |vms|].name
    ensures Assigned(a, tasks, vms[j].name) == Residues(|tasks|, |vms|, j)
    decreases |tasks|
  {
    if tasks != [] {
      var n := |tasks| - 1;
      assert forall i :: 0 <= i < n ==> tasks[..n][i] == tasks[i];
      AssignedIsResidues(a, tasks[..n], vms, j);
      var v := n % |vms|;
      assert vms[v].name == vms[j].name <==> v == j by {
        if v != j { assert DistinctNames(vms); }
      }
    }
  }

  /** Round robin over distinct task ids gives VM j either `N / n` or
      `N / n + 1` of the N tasks, the extra one going to the first
      `N mod n` VMs; so any two VMs' counts differ by at most one. */
  lemma Balanced(tasks: seq<Task>, vms: seq<VM>, j: nat, k: nat)
    requires DistinctIds(tasks) && DistinctNames(vms) && j < |vms| && k < |vms|
    ensures var a := Cyclic(tasks, vms);
            Assigned(a, tasks, vms[j].name)
              == |tasks| / |vms| + (if j < |tasks| % |vms| then 1 else 0)
            && -1 <= Assigned(a, tasks, vms[j].name) - Assigned(a, tasks, vms[k].name) <= 1
  {
    var a := Cyclic(tasks, vms);
    CyclicOfDistinct(tasks, vms);
    CyclicKeys(tasks, vms);
    AssignedIsResidues(a, tasks, vms, j);
    AssignedIsResidues(a, tasks, vms, k);
    ResiduesCount(|tasks|, |vms|, j);
    ResiduesCount(|tasks|, |vms|, k);
  }

  // ---------------------------------------------------------------------
  // Makespan of a solution

  /** Every item's task id is a key of `tasks_dict` and its VM name a key of
      `vms_dict`, so none of the lookups raises `KeyError`. */
  predicate Resolvable(items: seq<(int, string)>, tasksDict: map<int, Task>, vms: seq<VM>)
  {
    forall k :: 0 <= k < |items| ==> items[k].0 in tasksDict && items[k].1 in Names(vms)
  }

  /** The solution dictionary's items, each after the `tasks_dict` lookup. */
  function Entries(items: seq<(int, string)>, tasksDict: map<int, Task>): (es: seq<Entry>)
    requires forall k :: 0 <= k < |items| ==> items[k].0 in tasksDict
    ensures |es| == |items|
    ensures forall k :: 0 <= k < |items| ==> es[k] == (tasksDict[items[k].0], items[k].1)
  {
    seq(|items|, k requires 0 <= k < |items| => (tasksDict[items[k].0], items[k].1))
  }

  /** `get_final_makespan` over the items of a solution dictionary. `None`
      stands for the exceptions the source raises: `KeyError` when an item's
      task id is not in `tasks_dict` or its VM name not in `vms_dict`, and
      `ValueError` from `max` of no values when the fleet is empty.
      Otherwise the result is the largest per-VM load, at least every VM's
      load and equal to one of them. */
  method GetFinalMakespan(items: seq<(int, string)>, tasksDict: map<int, Task>, vms: seq<VM>)
    returns (makespan: Option<real>)
    requires ValidFleet(vms)
    ensures makespan.None? <==> |vms| == 0 || !Resolvable(items, tasksDict, vms)
    ensures makespan.Some? ==> makespan.value == MaxOf(Loads(Entries(items, tasksDict), vms))
    ensures makespan.Some? ==>
              (forall j :: 0 <= j < |vms| ==> LoadOn(Entries(items, tasksDict), vms[j]) <= makespan.value)
              && exists j :: 0 <= j < |vms| && LoadOn(Entries(items, tasksDict), vms[j]) == makespan.value
  {
    if !Resolvable(items, tasksDict, vms) || |vms| == 0 {
      return None;
    }
    var es := Entries(items, tasksDict);
    var vmLoads := AccumulateLoads(es, vms);
    var m := MaxLoad(vmLoads, vms);
    MaxLoadOfLoadMap(vmLoads, es, vms);
    makespan := Some(m);
  }
}
