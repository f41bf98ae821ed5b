/** The per-VM load every scheduler computes: the execution time of a task on
    a VM is `cpu_load / cpu_cores`, and the load of a VM is the sum of the
    execution times of the tasks assigned to it. */
module Workload {
  import opened Domain
  import opened Stats

  /** One `(task, vm_name)` pair of a solution, after the task lookup. */
  type Entry = (Task, string)

  /** Execution time of `t` on `vm`; exact, since it is a ratio of integers. */
  function Cost(t: Task, vm: VM): real
    requires vm.cpuCores > 0
  {
    t.cpuLoad as real / vm.cpuCores as real
  }

  /** What entry `e` adds to the load of `vm`. */
  function Share(e: Entry, vm: VM): real
    requires vm.cpuCores > 0
  {
    if e.1 == vm.name then Cost(e.0, vm) else 0.0
  }

  /** Load of `vm`: entries folded in order, as the source's loops do. */
  function LoadOn(es: seq<Entry>, vm: VM): real
    requires vm.cpuCores > 0
    decreases |es|
  {
    if es == [] then 0.0 else LoadOn(es[..|es| - 1], vm) + Share(es[|es| - 1], vm)
  }

  /** The per-VM load vector, in fleet order. */
  function Loads(es: seq<Entry>, vms: seq<VM>): (ls: seq<real>)
    requires PositiveCores(vms)
    ensures |ls| == |vms|
    ensures forall j :: 0 <= j < |vms| ==> ls[j] == LoadOn(es, vms[j])
  {
    seq(|vms|, j requires 0 <= j < |vms| => LoadOn(es, vms[j]))
  }

  /** The entries of a solution given positionally: task k is on the VM
      named `names[k]`. */
  function Zip(tasks: seq<Task>, names: seq<string>): (es: seq<Entry>)
    requires |names| == |tasks|
    ensures |es| == |tasks|
    ensures forall k :: 0 <= k < |tasks| ==> es[k] == (tasks[k], names[k])
  {
    seq(|tasks|, k requires 0 <= k < |tasks| => (tasks[k], names[k]))
  }

  predicate NonNegativeWork(es: seq<Entry>)
  {
    forall k :: 0 <= k < |es| ==> es[k].0.cpuLoad >= 0
  }

  /** Loads split over concatenation. */
  lemma {:induction false} LoadOnAppend(a: seq<Entry>, b: seq<Entry>, vm: VM)
    requires vm.cpuCores > 0
    ensures LoadOn(a + b, vm) == LoadOn(a, vm) + LoadOn(b, vm)
    decreases |b|
  {
    if b == [] {
      assert a + b == a;
    } else {
      var n := |b| - 1;
      assert (a + b)[..|a + b| - 1] == a + b[..n];
      LoadOnAppend(a, b[..n], vm);
    }
  }

  /** Order independence: any reordering of the entries gives the same load,
      so folding a dictionary's items in whatever order it yields them does
      not change the result. */
  lemma {:induction false} LoadOnPermutation(es: seq<Entry>, fs: seq<Entry>, vm: VM)
    requires vm.cpuCores > 0
    requires multiset(es) == multiset(fs)
    ensures LoadOn(es, vm) == LoadOn(fs, vm)
    decreases |es|
  {
    if es == [] {
      assert |multiset(fs)| == 0;
      assert fs == [];
    } else {
      var n := |es| - 1;
      var x := es[n];
      assert es == es[..n] + [x];
      assert x in multiset(fs);
      var j :| 0 <= j < |fs| && fs[j] == x;
      var rest := fs[..j] + fs[j + 1..];
      assert fs == fs[..j] + [x] + fs[j + 1..];
      assert multiset(fs) == multiset(fs[..j]) + multiset{x} + multiset(fs[j + 1..]);
      assert multiset(es) == multiset(es[..n]) + multiset{x};
      assert multiset(rest) == multiset(fs[..j]) + multiset(fs[j + 1..]);
      assert multiset(es[..n]) == multiset(es) - multiset{x};
      assert multiset(rest) == multiset(fs) - multiset{x};
      LoadOnPermutation(es[..n], rest, vm);
      LoadOnAppend(fs[..j] + [x], fs[j + 1..], vm);
      LoadOnAppend(fs[..j], [x], vm);
      LoadOnAppend(fs[..j], fs[j + 1..], vm);
      assert LoadOn([x], vm) == Share(x, vm) by {
        assert [x][..0] == [];
      }
    }
  }

  /** The whole load vector is order independent. */
  lemma LoadsPermutation(es: seq<Entry>, fs: seq<Entry>, vms: seq<VM>)
    requires PositiveCores(vms)
    requires multiset(es) == multiset(fs)
    ensures Loads(es, vms) == Loads(fs, vms)
  {
    forall j | 0 <= j < |vms|
      ensures Loads(es, vms)[j] == Loads(fs, vms)[j]
    {
      LoadOnPermutation(es, fs, vms[j]);
    }
  }

  /** Tasks with non-negative work give non-negative loads. */
  lemma {:induction false} LoadOnNonNegative(es: seq<Entry>, vm: VM)
    requires vm.cpuCores > 0 && NonNegativeWork(es)
    ensures LoadOn(es, vm) >= 0.0
    decreases |es|
  {
    if es != [] {
      var n := |es| - 1;
      assert NonNegativeWork(es[..n]) by {
        assert forall k :: 0 <= k < n ==> es[..n][k] == es[k];
      }
      LoadOnNonNegative(es[..n], vm);
    }
  }

  /** The summed execution time of all tasks on `vm`. */
  function TotalCost(tasks: seq<Task>, vm: VM): real
    requires vm.cpuCores > 0
    decreases |tasks|
  {
    if tasks == [] then 0.0 else TotalCost(tasks[..|tasks| - 1], vm) + Cost(tasks[|tasks| - 1], vm)
  }

  /** A VM that every task is assigned to carries all of their execution
      times. */
  lemma {:induction false} LoadOfAllOn(tasks: seq<Task>, names: seq<string>, vm: VM)
    requires vm.cpuCores > 0 && |names| == |tasks|
    requires forall k :: 0 <= k < |names| ==> names[k] == vm.name
    ensures LoadOn(Zip(tasks, names), vm) == TotalCost(tasks, vm)
    decreases |tasks|
  {
    if tasks != [] {
      var n := |tasks| - 1;
      assert Zip(tasks, names)[..n] == Zip(tasks[..n], names[..n]);
      LoadOfAllOn(tasks[..n], names[..n], vm);
    }
  }

  /** Moving entry `k` to the VM named `target` takes its share off the VM it
      was on and adds its share on `target`; every other VM is unaffected. */
  lemma LoadOnMove(es: seq<Entry>, k: nat, target: string, vm: VM)
    requires vm.cpuCores > 0 && k < |es|
    ensures LoadOn(es[k := (es[k].0, target)], vm)
         == LoadOn(es, vm) - Share(es[k], vm) + Share((es[k].0, target), vm)
  {
    var moved := (es[k].0, target);
    var es' := es[k := moved];
    assert es == es[..k] + [es[k]] + es[k + 1..];
    assert es' == es[..k] + [moved] + es[k + 1..];
    LoadOnAppend(es[..k] + [es[k]], es[k + 1..], vm);
    LoadOnAppend(es[..k], [es[k]], vm);
    LoadOnAppend(es[..k] + [moved], es[k + 1..], vm);
    LoadOnAppend(es[..k], [moved], vm);
    assert [es[k]][..0] == [] && [moved][..0] == [];
  }

  // ---------------------------------------------------------------------
  // The `{vm_name: load}` dictionary of the hill climber and round robin

  /** Every entry names a VM of the fleet. */
  predicate OnNames(es: seq<Entry>, vms: seq<VM>)
  {
    forall k :: 0 <= k < |es| ==> es[k].1 in Names(vms)
  }

  /** A load dictionary: one key per VM, holding the load of `es` on it. */
  predicate LoadMap(m: map<string, real>, es: seq<Entry>, vms: seq<VM>)
  {
    PositiveCores(vms) && m.Keys == Names(vms)
    && forall j :: 0 <= j < |vms| ==> m[vms[j].name] == LoadOn(es, vms[j])
  }

  /** `vm_loads = {name: 0.0 for name in vms_dict}`, then every entry's
      execution time added to the VM it names, in order. */
  method AccumulateLoads(es: seq<Entry>, vms: seq<VM>) returns (loads: map<string, real>)
    requires ValidFleet(vms) && OnNames(es, vms)
    ensures LoadMap(loads, es, vms)
  {
    loads := map n | n in Names(vms) :: 0.0;
    for k := 0 to |es|
      invariant loads.Keys == Names(vms)
      invariant forall j :: 0 <= j < |vms| ==> loads[vms[j].name] == LoadOn(es[..k], vms[j])
    {
      var name := es[k].1;
      var vm := vms[IndexOfName(vms, name)];
      loads := loads[name := loads[name] + Cost(es[k].0, vm)];
      assert es[..k + 1][..k] == es[..k];
      forall j | 0 <= j < |vms|
        ensures loads[vms[j].name] == LoadOn(es[..k + 1], vms[j])
      {
        if vms[j].name == name {
          IndexOfOwnName(vms, j);
        }
      }
    }
    assert es[..|es|] == es;
  }

  /** `max(vm_loads.values())`: the largest value of a dictionary keyed by
      the fleet's names. */
  function MaxLoad(m: map<string, real>, vms: seq<VM>): (r: real)
    requires |vms| > 0 && Names(vms) <= m.Keys
    ensures forall j :: 0 <= j < |vms| ==> m[vms[j].name] <= r
    ensures exists j :: 0 <= j < |vms| && m[vms[j].name] == r
  {
    var values := seq(|vms|, j requires 0 <= j < |vms| => m[vms[j].name]);
    assert forall j :: 0 <= j < |vms| ==> values[j] == m[vms[j].name];
    MaxOf(values)
  }

  /** The largest value of a load dictionary is the makespan of its entries. */
  lemma MaxLoadOfLoadMap(m: map<string, real>, es: seq<Entry>, vms: seq<VM>)
    requires LoadMap(m, es, vms) && |vms| > 0
    ensures MaxLoad(m, vms) == MaxOf(Loads(es, vms))
  {
    var values := seq(|vms|, j requires 0 <= j < |vms| => m[vms[j].name]);
    assert values == Loads(es, vms);
  }
}
