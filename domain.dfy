/** Entities shared by the three schedulers: tasks, virtual machines and the
    task-id to VM-name assignment they all return. */
module Domain {

  datatype Option<T> = None | Some(value: T)

  /** A task read from the dataset: `index` is its class (1..10) and
      `cpuLoad` the work derived from it. */
  datatype Task = Task(id: int, name: string, index: int, cpuLoad: int)

  /** A virtual machine; `ip` and `ramGb` are not used by any cost model. */
  datatype VM = VM(name: string, ip: string, cpuCores: int, ramGb: int)

  /** Every VM has at least one core, so execution times never divide by zero. */
  predicate PositiveCores(vms: seq<VM>)
  {
    forall j :: 0 <= j < |vms| ==> vms[j].cpuCores > 0
  }

  /** VM names identify VMs: `{vm.name: vm for vm in vms}` loses nothing. */
  predicate DistinctNames(vms: seq<VM>)
  {
    forall i, j :: 0 <= i < j < |vms| ==> vms[i].name != vms[j].name
  }

  /** A fleet the cost model can work with. */
  predicate ValidFleet(vms: seq<VM>)
  {
    PositiveCores(vms) && DistinctNames(vms)
  }

  /** Task ids identify tasks: `{task.id: task for task in tasks}` loses nothing. */
  predicate DistinctIds(tasks: seq<Task>)
  {
    forall i, j :: 0 <= i < j < |tasks| ==> tasks[i].id != tasks[j].id
  }

  /** The set of ids of a task list. */
  function Ids(tasks: seq<Task>): (r: set<int>)
    ensures forall i :: 0 <= i < |tasks| ==> tasks[i].id in r
  {
    set i | 0 <= i < |tasks| :: tasks[i].id
  }

  /** The set of VM names of a fleet. */
  function Names(vms: seq<VM>): (r: set<string>)
    ensures forall j :: 0 <= j < |vms| ==> vms[j].name in r
    decreases |vms|
  {
    if vms == [] then {} else Names(vms[..|vms| - 1]) + {vms[|vms| - 1].name}
  }

  /** Every name in the set is the name of some VM. */
  lemma {:induction false} NameHasIndex(vms: seq<VM>, name: string)
    requires name in Names(vms)
    ensures exists j :: 0 <= j < |vms| && vms[j].name == name
    decreases |vms|
  {
    var n := |vms| - 1;
    if name != vms[n].name {
      NameHasIndex(vms[..n], name);
      var j :| 0 <= j < n && vms[..n][j].name == name;
      assert vms[j].name == name;
    }
  }

  /** `list(vms_dict.keys())` for distinct names: the names in fleet order. */
  function VmNameList(vms: seq<VM>): (names: seq<string>)
    ensures |names| == |vms|
    ensures forall j :: 0 <= j < |vms| ==> names[j] == vms[j].name
  {
    seq(|vms|, j requires 0 <= j < |vms| => vms[j].name)
  }

  /** `vms_dict[name]` for `vms_dict = {vm.name: vm for vm in vms}`: the
      dictionary keeps the last VM of each name, so this is the position of
      the last VM called `name`. */
  function IndexOfName(vms: seq<VM>, name: string): (j: nat)
    requires name in Names(vms)
    ensures j < |vms| && vms[j].name == name
    ensures forall i :: j < i < |vms| ==> vms[i].name != name
    decreases |vms|
  {
    var n := |vms| - 1;
    if vms[n].name == name then n else IndexOfName(vms[..n], name)
  }

  /** With distinct names, the VM called `vms[j].name` is `vms[j]`. */
  lemma IndexOfOwnName(vms: seq<VM>, j: nat)
    requires DistinctNames(vms) && j < |vms|
    ensures IndexOfName(vms, vms[j].name) == j
  {
  }

  /** `{task.id: task for task in tasks}` for distinct ids. */
  function TaskDict(tasks: seq<Task>): (d: map<int, Task>)
    requires DistinctIds(tasks)
    ensures d.Keys == Ids(tasks)
    ensures forall i :: 0 <= i < |tasks| ==> d[tasks[i].id] == tasks[i]
  {
    map i | 0 <= i < |tasks| :: tasks[i].id := tasks[i]
  }

  /** `{tasks[i].id: names[i] for i}`: the assignment of the i-th task to the
      VM named `names[i]`, for distinct ids. */
  function Assignment(tasks: seq<Task>, names: seq<string>): (a: map<int, string>)
    requires DistinctIds(tasks) && |names| == |tasks|
    ensures a.Keys == Ids(tasks)
    ensures forall i :: 0 <= i < |tasks| ==> a[tasks[i].id] == names[i]
  {
    map i | 0 <= i < |tasks| :: tasks[i].id := names[i]
  }

  /** An assignment in the sense of the common scheduling contract: every
      task id is a key, nothing else is, and every value names a VM. */
  predicate Total(a: map<int, string>, tasks: seq<Task>, vms: seq<VM>)
  {
    a.Keys == Ids(tasks) && forall id :: id in a ==> a[id] in Names(vms)
  }

  /** Every entry of a discrete solution is a VM index. */
  predicate InRange(sol: seq<int>, n: int)
  {
    forall k :: 0 <= k < |sol| ==> 0 <= sol[k] < n
  }
}
