/** The discrete part of the Cloudy-GSA scheduler: the per-VM load vector,
    the three-objective fitness, particle masses, the decoder from a
    continuous position to VM indices, and the move/swap local search.

    A discrete solution is a sequence of VM indices, one per task position;
    the fitness of a solution is abstract wherever its standard-deviation
    term matters. */
module CloudyGsa {
  import opened Domain
  import opened Stats
  import opened Workload

  const PopSize: nat := 50
  const G0: real := 100.0
  const Eps: real := 0.000000000001
  const Inertia: real := 0.75
  const VelocityClamp: real := 2.0
  const MutationRate: real := 0.02
  const StagnationLimit: nat := 75
  const LocalSearchCandidates: nat := 5
  const LocalSearchRounds: nat := 2

  const WMakespan: real := 1.0
  const WStdDev: real := 1.2
  const WIdleTime: real := 0.5

  /** The task with id k sits at position k, which is what looking the
      k-th task up in the id-keyed task table takes for granted. */
  predicate IdsArePositions(tasks: seq<Task>)
  {
    forall k :: 0 <= k < |tasks| ==> tasks[k].id == k
  }

  /** What every evaluation of a discrete solution needs: one VM index per
      task, each naming an existing VM of a fleet with positive cores and
      distinct names. */
  predicate Setting(sol: seq<int>, tasks: seq<Task>, vms: seq<VM>)
  {
    |sol| == |tasks| && InRange(sol, |vms|) && ValidFleet(vms)
  }

  /** `vm_map[sol[k]]` for every task position k. */
  function VmNames(sol: seq<int>, vms: seq<VM>): (names: seq<string>)
    requires InRange(sol, |vms|)
    ensures |names| == |sol|
    ensures forall k :: 0 <= k < |sol| ==> names[k] == vms[sol[k]].name
  {
    seq(|sol|, k requires 0 <= k < |sol| => vms[sol[k]].name)
  }

  /** The per-VM load vector of a discrete solution. */
  function VmLoads(sol: seq<int>, tasks: seq<Task>, vms: seq<VM>): (ls: seq<real>)
    requires Setting(sol, tasks, vms)
    ensures |ls| == |vms|
  {
    Loads(Zip(tasks, VmNames(sol, vms)), vms)
  }

  /** With distinct names, task k adds to the load of VM v exactly when its
      entry is v. */
  lemma ShareOnIndex(sol: seq<int>, tasks: seq<Task>, vms: seq<VM>, k: nat, v: nat)
    requires Setting(sol, tasks, vms) && k < |sol| && v < |vms|
    ensures Share(Zip(tasks, VmNames(sol, vms))[k], vms[v])
         == if sol[k] == v then Cost(tasks[k], vms[v]) else 0.0
  {
  }

  /** `_get_vm_loads`: accumulates each task's execution time into a
      zero-initialised array slot of the VM it is on. */
  method GetVmLoads(sol: seq<int>, tasks: seq<Task>, vms: seq<VM>) returns (loads: seq<real>)
    requires Setting(sol, tasks, vms)
    ensures loads == VmLoads(sol, tasks, vms)
  {
    ghost var es := Zip(tasks, VmNames(sol, vms));
    var total := new real[|vms|](_ => 0.0);
    for k := 0 to |sol|
      invariant forall v :: 0 <= v < |vms| ==> total[v] == LoadOn(es[..k], vms[v])
    {
      var idx := sol[k];
      total[idx] := total[idx] + Cost(tasks[k], vms[idx]);
      forall v | 0 <= v < |vms|
        ensures total[v] == LoadOn(es[..k + 1], vms[v])
      {
        assert es[..k + 1][..k] == es[..k];
        ShareOnIndex(sol, tasks, vms, k, v);
      }
    }
    assert es[..|sol|] == es;
    loads := total[..];
  }

  /** The task `_get_vm_loads` takes for position k as the source writes it,
      `tasks_dict[k]` in the id-keyed table, with `None` for the `KeyError`
      raised when no task has id k. */
  function TaskAtAsWritten(tasks: seq<Task>, k: int): (t: Option<Task>)
    requires DistinctIds(tasks)
    ensures t.Some? <==> k in Ids(tasks)
    ensures t.Some? ==> t.value in tasks && t.value.id == k
  {
    if k in TaskDict(tasks) then Some(TaskDict(tasks)[k]) else None
  }

  /** When ids are positions the lookup by id finds the k-th task, which is
      the task the model's `GetVmLoads` uses. */
  lemma AsWrittenAgreesOnPositions(tasks: seq<Task>, k: nat)
    requires IdsArePositions(tasks) && k < |tasks|
    ensures DistinctIds(tasks) && TaskAtAsWritten(tasks, k) == Some(tasks[k])
  {
    assert tasks[k].id == k;
  }

  /** Summed idle time `sum(makespan - loads)`: never negative, and zero
      exactly when every VM is as loaded as the busiest one. */
  function IdleTime(loads: seq<real>): (idle: real)
    requires |loads| > 0
    ensures idle >= 0.0
    ensures idle == 0.0 <==> forall v :: 0 <= v < |loads| ==> loads[v] == MaxOf(loads)
  {
    var m := MaxOf(loads);
    var gaps := seq(|loads|, v requires 0 <= v < |loads| => m - loads[v]);
    assert NonNegative(gaps);
    assert forall v :: 0 <= v < |loads| ==> (gaps[v] == 0.0 <==> loads[v] == m);
    SumOfNonNegative(gaps);
    SumOfZero(gaps);
    SumOf(gaps)
  }

  /** The three-objective score of a load vector, given its standard
      deviation: since the weights are non-negative and the makespan weight
      is one, the score is never below the makespan. */
  function Fitness(loads: seq<real>, stdDev: real): (f: real)
    requires |loads| > 0
    ensures stdDev >= 0.0 ==> f >= MaxOf(loads)
  {
    WMakespan * MaxOf(loads) + WStdDev * stdDev + WIdleTime * IdleTime(loads)
  }

  /** `_evaluate_fitness`; `stdDev` stands for `np.std`, which is not modelled. */
  function EvaluateFitness(sol: seq<int>, tasks: seq<Task>, vms: seq<VM>,
                           stdDev: seq<real> -> real): (f: real)
    requires Setting(sol, tasks, vms) && |vms| > 0
    ensures stdDev(VmLoads(sol, tasks, vms)) >= 0.0 ==> f >= MaxOf(VmLoads(sol, tasks, vms))
  {
    var loads := VmLoads(sol, tasks, vms);
    Fitness(loads, stdDev(loads))
  }

  /** The fitness depends on the (task, VM) pairs only as a multiset: the
      order in which tasks are folded into the loads does not matter. */
  lemma FitnessOrderIndependent(es: seq<Entry>, fs: seq<Entry>, vms: seq<VM>,
                                stdDev: seq<real> -> real)
    requires PositiveCores(vms) && |vms| > 0
    requires multiset(es) == multiset(fs)
    ensures Fitness(Loads(es, vms), stdDev(Loads(es, vms)))
         == Fitness(Loads(fs, vms), stdDev(Loads(fs, vms)))
  {
    LoadsPermutation(es, fs, vms);
  }

  /** On a one-VM fleet every task runs on that VM, whose load is then the
      summed execution time of all tasks; there is no idle time, and the
      score is that load plus the weighted deviation term. */
  lemma SingleVmFitness(sol: seq<int>, tasks: seq<Task>, vms: seq<VM>, stdDev: seq<real> -> real)
    requires Setting(sol, tasks, vms) && |vms| == 1
    ensures var loads := VmLoads(sol, tasks, vms);
            loads[0] == TotalCost(tasks, vms[0])
            && EvaluateFitness(sol, tasks, vms, stdDev) == loads[0] + WStdDev * stdDev(loads)
  {
    var loads := VmLoads(sol, tasks, vms);
    LoadOfAllOn(tasks, VmNames(sol, vms), vms[0]);
    assert MaxOf(loads) == loads[0];
    assert IdleTime(loads) == 0.0;
  }

  /** `t / (t + e)` lies within `e` of one, from below, once `t >= 1`. */
  lemma NormalisedNearOne(t: real, e: real)
    requires t >= 1.0 && 0.0 < e < 1.0
    ensures 1.0 - e < t / (t + e) < 1.0
  {
    var c := t + e;
    DivideSelf(c);
    DivideStrict(t, c, c);
    var u := t + e - 1.0;
    var p := e * u;
    PositiveProduct(e, u);
    var b := (1.0 - e) * c;
    assert b == t - p;
    DivideStrict(b, t, c);
    MultiplyDivide(1.0 - e, b, c);
  }

  /** Distances below `worst`, scaled by a positive `d`, are non-negative
      and reverse the order of the values. */
  lemma ScaledBelowWorst(fitness: seq<real>, raw: seq<real>, worst: real, d: real)
    requires d > 0.0 && |raw| == |fitness|
    requires forall i :: 0 <= i < |fitness| ==> fitness[i] <= worst && raw[i] == (worst - fitness[i]) / d
    ensures NonNegative(raw)
    ensures forall i, j :: 0 <= i < |fitness| && 0 <= j < |fitness| && fitness[i] <= fitness[j]
              ==> raw[j] <= raw[i]
  {
    forall i | 0 <= i < |fitness| ensures raw[i] >= 0.0 {
      DivideMonotone(0.0, worst - fitness[i], d);
    }
    forall i, j | 0 <= i < |fitness| && 0 <= j < |fitness| && fitness[i] <= fitness[j]
      ensures raw[j] <= raw[i]
    {
      DivideMonotone(worst - fitness[j], worst - fitness[i], d);
    }
  }

  /** The raw mass `(worst - f) / (worst - best)` of every particle. */
  function RawMass(fitness: seq<real>): (raw: seq<real>)
    requires |fitness| > 0 && MaxOf(fitness) - MinOf(fitness) >= Eps
    ensures |raw| == |fitness| && NonNegative(raw)
    ensures forall i :: 0 <= i < |fitness| && fitness[i] == MinOf(fitness) ==> raw[i] == 1.0
    ensures forall i :: 0 <= i < |fitness| && fitness[i] == MaxOf(fitness) ==> raw[i] == 0.0
    ensures forall i, j :: 0 <= i < |fitness| && 0 <= j < |fitness| && fitness[i] <= fitness[j]
              ==> raw[j] <= raw[i]
  {
    var best, worst := MinOf(fitness), MaxOf(fitness);
    var d := worst - best;
    var raw := seq(|fitness|, i requires 0 <= i < |fitness| => (worst - fitness[i]) / d);
    ScaledBelowWorst(fitness, raw, worst, d);
    DivideSelf(d);
    raw
  }

  /** Dividing non-negative weights by a positive constant keeps them
      non-negative, keeps zeros and keeps their order. */
  function Normalise(raw: seq<real>, c: real): (mass: seq<real>)
    requires c > 0.0 && NonNegative(raw)
    ensures |mass| == |raw| && NonNegative(mass)
    ensures forall i :: 0 <= i < |raw| ==> mass[i] == raw[i] / c
    ensures forall i :: 0 <= i < |raw| && raw[i] == 0.0 ==> mass[i] == 0.0
    ensures forall i, j :: 0 <= i < |raw| && 0 <= j < |raw| && raw[j] <= raw[i] ==> mass[j] <= mass[i]
  {
    var mass := seq(|raw|, i requires 0 <= i < |raw| => raw[i] / c);
    assert NonNegative(mass) by {
      forall i | 0 <= i < |raw| ensures mass[i] >= 0.0 {
        DivideMonotone(0.0, raw[i], c);
      }
    }
    assert forall i, j :: 0 <= i < |raw| && 0 <= j < |raw| && raw[j] <= raw[i] ==> mass[j] <= mass[i] by {
      forall i, j | 0 <= i < |raw| && 0 <= j < |raw| && raw[j] <= raw[i]
        ensures mass[j] <= mass[i]
      {
        DivideMonotone(raw[j], raw[i], c);
      }
    }
    mass
  }

  /** `_compute_mass`: uniform `1/len` masses when all fitness values lie
      within `Eps` of each other; otherwise the raw masses normalised by
      their sum plus `Eps`. No mass is negative, the worst particle weighs
      nothing, and a lower (better) fitness never gets a smaller mass. */
  function ComputeMass(fitness: seq<real>): (mass: seq<real>)
    requires |fitness| > 0
    ensures |mass| == |fitness| && NonNegative(mass)
    ensures (MaxOf(fitness) - MinOf(fitness) < Eps)
              ==> forall i :: 0 <= i < |mass| ==> mass[i] == 1.0 / |fitness| as real
    ensures (MaxOf(fitness) - MinOf(fitness) >= Eps)
              ==> forall i :: 0 <= i < |mass| && fitness[i] == MaxOf(fitness) ==> mass[i] == 0.0
    ensures forall i, j :: 0 <= i < |fitness| && 0 <= j < |fitness| && fitness[i] <= fitness[j]
              ==> mass[j] <= mass[i]
  {
    if MaxOf(fitness) - MinOf(fitness) < Eps then
      seq(|fitness|, i => 1.0 / |fitness| as real)
    else
      var raw := RawMass(fitness);
      SumOfNonNegative(raw);
      Normalise(raw, SumOf(raw) + Eps)
  }

  /** With all fitness values within `Eps`, the masses sum to exactly one. */
  lemma MassSumUniform(fitness: seq<real>)
    requires |fitness| > 0 && MaxOf(fitness) - MinOf(fitness) < Eps
    ensures SumOf(ComputeMass(fitness)) == 1.0
  {
    var mass := ComputeMass(fitness);
    assert |mass| == |fitness|;
    UniformSumsToOne(mass);
  }

  /** `n` shares of `1/n` make one. */
  lemma UniformSumsToOne(s: seq<real>)
    requires |s| > 0 && forall j :: 0 <= j < |s| ==> s[j] == 1.0 / |s| as real
    ensures SumOf(s) == 1.0
  {
    var n := |s| as real;
    SumOfConstant(s, 1.0 / n);
    MultiplyInverse(n);
  }

  /** Otherwise they sum to within `Eps` of one, from below: the best
      particle's raw mass is one, so the raw total is at least one. */
  lemma MassSumSpread(fitness: seq<real>)
    requires |fitness| > 0 && MaxOf(fitness) - MinOf(fitness) >= Eps
    ensures 1.0 - Eps < SumOf(ComputeMass(fitness)) < 1.0
  {
    var raw := RawMass(fitness);
    var total := SumOf(raw);
    SumOfNonNegative(raw);
    var mass := ComputeMass(fitness);
    assert mass == Normalise(raw, total + Eps);
    SumOfDivided(raw, mass, total + Eps);
    SumOfAtLeastTerm(raw, ArgMin(fitness));
    NormalisedNearOne(total, Eps);
  }

  /** `np.round`: nearest integer, ties to the even neighbour. */
  function RoundHalfEven(x: real): (r: int)
    ensures -0.5 <= r as real - x <= 0.5
    ensures r as real - x == 0.5 || x - r as real == 0.5 ==> r % 2 == 0
  {
    var f := x.Floor;
    var d := x - f as real;
    if d < 0.5 then f
    else if d > 0.5 then f + 1
    else if f % 2 == 0 then f
    else f + 1
  }

  function Distance(a: real, b: real): real
  {
    if a >= b then a - b else b - a
  }

  /** No integer is nearer to `x` than its rounding. */
  lemma RoundIsNearest(x: real, z: int)
    ensures Distance(RoundHalfEven(x) as real, x) <= Distance(z as real, x)
  {
    var r := RoundHalfEven(x);
    if z < r {
      assert z as real <= r as real - 1.0;
    } else if z > r {
      assert z as real >= r as real + 1.0;
    }
  }

  /** `np.clip(z, lo, hi)`. */
  function Clip(z: int, lo: int, hi: int): int
  {
    if z < lo then lo else if z > hi then hi else z
  }

  /** `_map_to_solution`: round every coordinate, then clip it to the VM
      index range. The length is kept, every entry is a VM index, and a
      coordinate already in range is only rounded. */
  function MapToSolution(position: seq<real>, nVms: int): (sol: seq<int>)
    requires nVms >= 1
    ensures |sol| == |position| && InRange(sol, nVms)
    ensures forall k :: 0 <= k < |position| && 0.0 <= position[k] <= (nVms - 1) as real
              ==> sol[k] == RoundHalfEven(position[k])
  {
    seq(|position|, k requires 0 <= k < |position| => Clip(RoundHalfEven(position[k]), 0, nVms - 1))
  }

  /** `improved_solution.astype(float)`. */
  function AsPosition(sol: seq<int>): (position: seq<real>)
    ensures |position| == |sol|
    ensures forall k :: 0 <= k < |sol| ==> position[k] == sol[k] as real
  {
    seq(|sol|, k requires 0 <= k < |sol| => sol[k] as real)
  }

  /** Writing a discrete solution back as a position and decoding it again
      gives the same solution: the integer coordinates survive rounding. */
  lemma {:induction false} DecodeOfIntegerPosition(sol: seq<int>, nVms: int)
    requires nVms >= 1 && InRange(sol, nVms)
    ensures MapToSolution(AsPosition(sol), nVms) == sol
  {
    var back := MapToSolution(AsPosition(sol), nVms);
    forall k | 0 <= k < |sol| ensures back[k] == sol[k] {
      assert AsPosition(sol)[k].Floor == sol[k];
    }
  }

  /** `[i for i, vm in enumerate(sol) if vm == v]`: the task positions on VM
      `v`, in increasing order. */
  function TasksOn(sol: seq<int>, v: int): (idx: seq<nat>)
    ensures forall i :: i in idx <==> 0 <= i < |sol| && sol[i] == v
    ensures forall a, b :: 0 <= a < b < |idx| ==> idx[a] < idx[b]
    ensures forall a :: 0 <= a < |idx| ==> idx[a] < |sol|
    decreases |sol|
  {
    if sol == [] then []
    else
      var n := |sol| - 1;
      TasksOn(sol[..n], v) + (if sol[n] == v then [n] else [])
  }

  /** The local search ends before trying anything: the most loaded VM is
      also the least loaded, or the most loaded VM runs no task. */
  predicate NoCandidates(sol: seq<int>, tasks: seq<Task>, vms: seq<VM>)
    requires Setting(sol, tasks, vms) && |vms| > 0
  {
    var loads := VmLoads(sol, tasks, vms);
    ArgMax(loads) == ArgMin(loads) || TasksOn(sol, ArgMax(loads)) == []
  }

  /** The result of one improvement step: a valid solution whose recorded
      fitness is its own, and that is either the step's input or strictly
      better than it. */
  predicate Descends(before: seq<int>, fBefore: real, after: seq<int>, fAfter: real,
                     nVms: int, fit: seq<int> -> real)
  {
    |after| == |before| && InRange(after, nVms) && fAfter == fit(after)
    && ((after == before && fAfter == fBefore) || fAfter < fBefore)
  }

  /** Lines 103-109 as a fold: from `sol`, whose fitness is `f`, each listed
      task in turn is tried on VM `least`, and the change is kept only when
      it strictly lowers the fitness. Every kept change lowers it, so the
      result is the input or strictly better. */
  function Moves(sol: seq<int>, f: real, onMost: seq<nat>, least: nat, nVms: int,
                 fit: seq<int> -> real): (r: (seq<int>, real))
    requires InRange(sol, nVms) && least < nVms && f == fit(sol)
    requires forall a :: 0 <= a < |onMost| ==> onMost[a] < |sol|
    ensures Descends(sol, f, r.0, r.1, nVms, fit)
    decreases |onMost|
  {
    if onMost == [] then (sol, f)
    else
      var temp := sol[onMost[0] := least];
      var next := if fit(temp) < f then (temp, fit(temp)) else (sol, f);
      assert forall a :: 0 <= a < |onMost[1..]| ==> onMost[1..][a] == onMost[a + 1];
      Moves(next.0, next.1, onMost[1..], least, nVms, fit)
  }

  /** Lines 114-120 for one task `i` of the busiest VM: its entry is
      exchanged with that of each listed task in turn, the exchange kept
      only when it strictly lowers the fitness. */
  function SwapRow(sol: seq<int>, f: real, i: nat, onLeast: seq<nat>, nVms: int,
                   fit: seq<int> -> real): (r: (seq<int>, real))
    requires InRange(sol, nVms) && f == fit(sol) && i < |sol|
    requires forall b :: 0 <= b < |onLeast| ==> onLeast[b] < |sol|
    ensures Descends(sol, f, r.0, r.1, nVms, fit)
    decreases |onLeast|
  {
    if onLeast == [] then (sol, f)
    else
      var j := onLeast[0];
      var temp := sol[i := sol[j]][j := sol[i]];
      var next := if fit(temp) < f then (temp, fit(temp)) else (sol, f);
      assert forall b :: 0 <= b < |onLeast[1..]| ==> onLeast[1..][b] == onLeast[b + 1];
      SwapRow(next.0, next.1, i, onLeast[1..], nVms, fit)
  }

  /** Lines 113-120 as a fold: `SwapRow` for each task of the busiest VM in
      turn. */
  function Swaps(sol: seq<int>, f: real, onMost: seq<nat>, onLeast: seq<nat>, nVms: int,
                 fit: seq<int> -> real): (r: (seq<int>, real))
    requires InRange(sol, nVms) && f == fit(sol)
    requires forall a :: 0 <= a < |onMost| ==> onMost[a] < |sol|
    requires forall b :: 0 <= b < |onLeast| ==> onLeast[b] < |sol|
    ensures Descends(sol, f, r.0, r.1, nVms, fit)
    decreases |onMost|
  {
    if onMost == [] then (sol, f)
    else
      var row := SwapRow(sol, f, onMost[0], onLeast, nVms, fit);
      assert forall a :: 0 <= a < |onMost[1..]| ==> onMost[1..][a] == onMost[a + 1];
      Swaps(row.0, row.1, onMost[1..], onLeast, nVms, fit)
  }

  /** The move phase (lines 103-109): the same as the fold `Moves`. */
  method TryMoves(sol: seq<int>, current: real, onMost: seq<nat>, least: nat, nVms: int,
                  fit: seq<int> -> real) returns (best: seq<int>, bestFitness: real)
    requires InRange(sol, nVms) && least < nVms && current == fit(sol)
    requires forall a :: 0 <= a < |onMost| ==> onMost[a] < |sol|
    ensures (best, bestFitness) == Moves(sol, current, onMost, least, nVms, fit)
    ensures Descends(sol, current, best, bestFitness, nVms, fit)
  {
    ghost var goal := Moves(sol, current, onMost, least, nVms, fit);
    best, bestFitness := sol, current;
    for a := 0 to |onMost|
      invariant |best| == |sol| && InRange(best, nVms) && bestFitness == fit(best)
      invariant Moves(best, bestFitness, onMost[a..], least, nVms, fit) == goal
    {
      assert onMost[a..][0] == onMost[a] && onMost[a..][1..] == onMost[a + 1..];
      var temp := best[onMost[a] := least];
      var newFitness := fit(temp);
      if newFitness < bestFitness {
        best, bestFitness := temp, newFitness;
      }
    }
    assert onMost[|onMost|..] == [];
  }

  /** The swap phase (lines 113-120): the same as the fold `Swaps`. */
  method TrySwaps(sol: seq<int>, current: real, onMost: seq<nat>, onLeast: seq<nat>, nVms: int,
                  fit: seq<int> -> real) returns (best: seq<int>, bestFitness: real)
    requires InRange(sol, nVms) && current == fit(sol)
    requires forall a :: 0 <= a < |onMost| ==> onMost[a] < |sol|
    requires forall b :: 0 <= b < |onLeast| ==> onLeast[b] < |sol|
    ensures (best, bestFitness) == Swaps(sol, current, onMost, onLeast, nVms, fit)
    ensures Descends(sol, current, best, bestFitness, nVms, fit)
  {
    ghost var goal := Swaps(sol, current, onMost, onLeast, nVms, fit);
    best, bestFitness := sol, current;
    for a := 0 to |onMost|
      invariant |best| == |sol| && InRange(best, nVms) && bestFitness == fit(best)
      invariant Swaps(best, bestFitness, onMost[a..], onLeast, nVms, fit) == goal
    {
      assert onMost[a..][0] == onMost[a] && onMost[a..][1..] == onMost[a + 1..];
      ghost var rest := onMost[a + 1..];
      for b := 0 to |onLeast|
        invariant |best| == |sol| && InRange(best, nVms) && bestFitness == fit(best)
        invariant var row := SwapRow(best, bestFitness, onMost[a], onLeast[b..], nVms, fit);
                  Swaps(row.0, row.1, rest, onLeast, nVms, fit) == goal
      {
        assert onLeast[b..][0] == onLeast[b] && onLeast[b..][1..] == onLeast[b + 1..];
        var i, j := onMost[a], onLeast[b];
        var temp := best[i := best[j]][j := best[i]];
        var newFitness := fit(temp);
        if newFitness < bestFitness {
          best, bestFitness := temp, newFitness;
        }
      }
      assert onLeast[|onLeast|..] == [];
    }
    assert onMost[|onMost|..] == [];
  }

  /** Lines 90-120 as a recursion over the remaining rounds: a round stops
      the search when the busiest VM is also the idlest or runs no task;
      otherwise it runs the move phase and then, when the idlest VM runs a
      task, the swap phase. */
  function Search(sol: seq<int>, f: real, rounds: nat, tasks: seq<Task>, vms: seq<VM>,
                  fit: seq<int> -> real): (r: (seq<int>, real))
    requires Setting(sol, tasks, vms) && |vms| > 0 && f == fit(sol)
    ensures Descends(sol, f, r.0, r.1, |vms|, fit)
    decreases rounds
  {
    if rounds == 0 then (sol, f)
    else
      var loads := VmLoads(sol, tasks, vms);
      var most, least := ArgMax(loads), ArgMin(loads);
      var onMost := TasksOn(sol, most);
      if most == least || onMost == [] then (sol, f)
      else
        var onLeast := TasksOn(sol, least);
        var moved := Moves(sol, f, onMost, least, |vms|, fit);
        var swapped := if onLeast != [] then Swaps(moved.0, moved.1, onMost, onLeast, |vms|, fit)
                       else moved;
        Search(swapped.0, swapped.1, rounds - 1, tasks, vms, fit)
  }

  /** What `_intelligent_local_search` returns for `sol`: a valid solution of
      the same length, the input or one of strictly lower fitness. */
  function LocalSearch(sol: seq<int>, tasks: seq<Task>, vms: seq<VM>, fit: seq<int> -> real)
    : (best: seq<int>)
    requires Setting(sol, tasks, vms) && |vms| > 0
    ensures |best| == |sol| && InRange(best, |vms|)
    ensures fit(best) <= fit(sol)
    ensures best == sol || fit(best) < fit(sol)
  {
    Search(sol, fit(sol), LocalSearchRounds, tasks, vms, fit).0
  }

  /** The search gives its input back when there is nothing to move: the
      busiest VM is also the idlest, or it runs no task. */
  lemma NothingToMove(sol: seq<int>, tasks: seq<Task>, vms: seq<VM>, fit: seq<int> -> real)
    requires Setting(sol, tasks, vms) && |vms| > 0 && NoCandidates(sol, tasks, vms)
    ensures LocalSearch(sol, tasks, vms, fit) == sol
  {
  }

  /** `_intelligent_local_search`, for an arbitrary fitness `fit`: two rounds
      of moving each task of the most loaded VM to the least loaded one, then
      swapping each pair of tasks between them, keeping a change only when it
      strictly lowers the fitness. */
  method IntelligentLocalSearch(sol: seq<int>, tasks: seq<Task>, vms: seq<VM>,
                                fit: seq<int> -> real) returns (best: seq<int>)
    requires Setting(sol, tasks, vms) && |vms| > 0
    ensures best == LocalSearch(sol, tasks, vms, fit)
  {
    ghost var goal := Search(sol, fit(sol), LocalSearchRounds, tasks, vms, fit);
    var current := fit(sol);
    best := sol;
    var round := 0;
    while round < LocalSearchRounds
      invariant 0 <= round <= LocalSearchRounds
      invariant Setting(best, tasks, vms) && current == fit(best)
      invariant Search(best, current, LocalSearchRounds - round, tasks, vms, fit) == goal
    {
      var loads := GetVmLoads(best, tasks, vms);
      var most := ArgMax(loads);
      var least := ArgMin(loads);
      if most == least {
        break;
      }
      var onMost := TasksOn(best, most);
      var onLeast := TasksOn(best, least);
      if onMost == [] {
        break;
      }
      var moved, movedFitness := TryMoves(best, current, onMost, least, |vms|, fit);
      if onLeast != [] {
        best, current := TrySwaps(moved, movedFitness, onMost, onLeast, |vms|, fit);
      } else {
        best, current := moved, movedFitness;
      }
      round := round + 1;
    }
  }
}
