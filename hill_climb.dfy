/** Stochastic hill climbing with random restarts (`stochastic_hill_climb`).

    A solution is kept as the VM name of every task, in task order, which is
    the order of the source's solution dictionary; the dictionary itself is
    `Assignment(tasks, solution)`. The per-VM load cache is a map from VM
    name to load, updated by a delta on every accepted move. Every random
    choice is an input: the starting VM index of every task for a restart,
    and, for every iteration, the index of the task to move and the index of
    the target among the other VMs. */
module HillClimb {
  import opened Domain
  import opened Stats
  import opened Workload

  /** The name list and the name set hold the same names. */
  lemma NameListHasNames(vms: seq<VM>, v: string)
    ensures v in VmNameList(vms) <==> v in Names(vms)
  {
    if v in VmNameList(vms) {
      var j :| 0 <= j < |vms| && VmNameList(vms)[j] == v;
      assert vms[j].name == v;
    }
    if v in Names(vms) {
      NameHasIndex(vms, v);
      var j :| 0 <= j < |vms| && vms[j].name == v;
      assert VmNameList(vms)[j] == v;
    }
  }

  predicate Distinct(s: seq<string>)
  {
    forall i, j :: 0 <= i < j < |s| ==> s[i] != s[j]
  }

  /** Every task of a solution is on a VM of the fleet. */
  predicate OnFleet(sol: seq<string>, vms: seq<VM>)
  {
    forall k :: 0 <= k < |sol| ==> sol[k] in Names(vms)
  }

  /** The cache agrees with the loads of the solution, VM by VM. */
  predicate Consistent(cache: map<string, real>, tasks: seq<Task>, sol: seq<string>, vms: seq<VM>)
  {
    |sol| == |tasks| && LoadMap(cache, Zip(tasks, sol), vms)
  }

  /** `get_initial_loads`: one key per VM, starting at 0, and every task's
      execution time added to the VM it is assigned to, in task order. */
  method GetInitialLoads(tasks: seq<Task>, sol: seq<string>, vms: seq<VM>)
    returns (loads: map<string, real>)
    requires |sol| == |tasks| && ValidFleet(vms) && OnFleet(sol, vms)
    ensures Consistent(loads, tasks, sol, vms)
  {
    loads := AccumulateLoads(Zip(tasks, sol), vms);
  }

  /** `[v for v in vm_names if v != current]`. */
  function OtherVms(names: seq<string>, current: string): (r: seq<string>)
    ensures forall v :: v in r <==> v in names && v != current
    ensures current !in names ==> r == names
    decreases |names|
  {
    if names == [] then []
    else (if names[0] != current then [names[0]] else []) + OtherVms(names[1..], current)
  }

  /** Among distinct names that include the current one, the others number
      one fewer: with at least two VMs there is always a target. */
  lemma {:induction false} OtherVmsLength(names: seq<string>, current: string)
    requires Distinct(names) && current in names
    ensures |OtherVms(names, current)| == |names| - 1
    decreases |names|
  {
    if names[0] == current {
      forall i | 0 <= i < |names[1..]|
        ensures names[1..][i] != current
      {
        assert names[1..][i] == names[i + 1];
      }
    } else {
      assert current in names[1..];
      assert Distinct(names[1..]) by {
        forall i, j | 0 <= i < j < |names[1..]|
          ensures names[1..][i] != names[1..][j]
        {
          assert names[1..][i] == names[i + 1] && names[1..][j] == names[j + 1];
        }
      }
      OtherVmsLength(names[1..], current);
    }
  }

  /** `random.choice([v for v in vm_names if v != current])` with the draw
      given as an index: a VM of the fleet other than the current one. */
  function Target(vms: seq<VM>, current: string, choice: nat): (target: string)
    requires DistinctNames(vms) && current in Names(vms) && choice < |vms| - 1
    ensures target in Names(vms) && target != current
  {
    var vmNames := VmNameList(vms);
    NameListHasNames(vms, current);
    OtherVmsLength(vmNames, current);
    var target := OtherVms(vmNames, current)[choice];
    NameListHasNames(vms, target);
    target
  }

  /** The makespan of a consistent cache is the makespan of the solution. */
  lemma MakespanOfConsistent(cache: map<string, real>, tasks: seq<Task>, sol: seq<string>, vms: seq<VM>)
    requires Consistent(cache, tasks, sol, vms) && |vms| > 0
    ensures MaxLoad(cache, vms) == MaxOf(Loads(Zip(tasks, sol), vms))
  {
    MaxLoadOfLoadMap(cache, Zip(tasks, sol), vms);
  }

  /** Lines 57-79: the cache after moving task `k` from `current` to `target`:
      the task's execution time on its old VM is taken off that VM, and its
      execution time on the new VM is put on the new one. */
  function Predict(cache: map<string, real>, task: Task, current: string, target: string,
                   vms: seq<VM>): (temp: map<string, real>)
    requires PositiveCores(vms) && current in Names(vms) && target in Names(vms)
    requires Names(vms) <= cache.Keys
    ensures temp.Keys == cache.Keys
  {
    var costOnOld := Cost(task, vms[IndexOfName(vms, current)]);
    var costOnNew := Cost(task, vms[IndexOfName(vms, target)]);
    cache[current := cache[current] - costOnOld][target := cache[target] + costOnNew]
  }

  /** The delta update is exact: applying it to a cache consistent with a
      solution gives the cache consistent with the moved solution. */
  lemma PredictConsistent(cache: map<string, real>, tasks: seq<Task>, sol: seq<string>,
                          vms: seq<VM>, k: nat, target: string)
    requires Consistent(cache, tasks, sol, vms) && DistinctNames(vms)
    requires k < |tasks| && sol[k] in Names(vms) && target in Names(vms) && target != sol[k]
    ensures Consistent(Predict(cache, tasks[k], sol[k], target, vms), tasks, sol[k := target], vms)
  {
    var es := Zip(tasks, sol);
    var temp := Predict(cache, tasks[k], sol[k], target, vms);
    assert Zip(tasks, sol[k := target]) == es[k := (tasks[k], target)];
    forall j | 0 <= j < |vms|
      ensures temp[vms[j].name] == LoadOn(Zip(tasks, sol[k := target]), vms[j])
    {
      LoadOnMove(es, k, target, vms[j]);
      IndexOfOwnName(vms, j);
    }
  }

  /** The state of a restart between iterations: a solution on the fleet,
      the cache consistent with it, and its makespan. */
  predicate Climbing(tasks: seq<Task>, vms: seq<VM>, current: seq<string>,
                     cache: map<string, real>, makespan: real)
  {
    |vms| > 0 && OnFleet(current, vms) && Consistent(cache, tasks, current, vms)
    && makespan == MaxLoad(cache, vms)
  }

  /** Taking a move keeps the restart's state: the moved solution is on the
      fleet, and the predicted cache is consistent with it. */
  lemma MoveKeepsClimbing(tasks: seq<Task>, vms: seq<VM>, current: seq<string>,
                          cache: map<string, real>, makespan: real, k: nat, target: string)
    requires ValidFleet(vms) && Climbing(tasks, vms, current, cache, makespan)
    requires k < |tasks| && target in Names(vms) && target != current[k]
    ensures var temp := Predict(cache, tasks[k], current[k], target, vms);
            Climbing(tasks, vms, current[k := target], temp, MaxLoad(temp, vms))
  {
    PredictConsistent(cache, tasks, current, vms, k, target);
  }

  /** The delta prediction decides a move as `Advance` does: the move is
      taken exactly when the predicted cache's makespan is below the
      current one. */
  lemma AdvanceByCache(tasks: seq<Task>, vms: seq<VM>, current: seq<string>, cache: map<string, real>,
                       makespan: real, move: (nat, nat))
    requires ValidFleet(vms) && |vms| >= 2
    requires Climbing(tasks, vms, current, cache, makespan)
    requires move.0 < |tasks| && move.1 < |vms| - 1
    ensures var target := Target(vms, current[move.0], move.1);
            var temp := Predict(cache, tasks[move.0], current[move.0], target, vms);
            Advance(tasks, vms, current, move)
            == if MaxLoad(temp, vms) < makespan then current[move.0 := target] else current
  {
    var k := move.0;
    var target := Target(vms, current[k], move.1);
    PredictedMakespan(tasks, vms, current, cache, makespan, k, target);
    AdvanceDecides(tasks, vms, current, move);
  }

  /** `Advance` moves the task exactly when the moved solution's makespan
      is below the current one. */
  lemma AdvanceDecides(tasks: seq<Task>, vms: seq<VM>, sol: seq<string>, move: (nat, nat))
    requires ValidFleet(vms) && |vms| >= 1 && |sol| == |tasks| && OnFleet(sol, vms)
    requires move.0 < |tasks| && move.1 < |vms| - 1
    ensures var moved := sol[move.0 := Target(vms, sol[move.0], move.1)];
            Advance(tasks, vms, sol, move)
            == if Makespan(tasks, vms, moved) < Makespan(tasks, vms, sol) then moved else sol
  {
  }

  /** The predicted cache's makespan is the moved solution's makespan, and
      the restart's makespan is the current solution's. */
  lemma PredictedMakespan(tasks: seq<Task>, vms: seq<VM>, current: seq<string>,
                          cache: map<string, real>, makespan: real, k: nat, target: string)
    requires ValidFleet(vms) && Climbing(tasks, vms, current, cache, makespan)
    requires k < |tasks| && target in Names(vms) && target != current[k]
    ensures makespan == Makespan(tasks, vms, current)
    ensures MaxLoad(Predict(cache, tasks[k], current[k], target, vms), vms)
         == Makespan(tasks, vms, current[k := target])
  {
    var temp := Predict(cache, tasks[k], current[k], target, vms);
    MoveKeepsClimbing(tasks, vms, current, cache, makespan, k, target);
    MakespanOfConsistent(cache, tasks, current, vms);
    MakespanOfConsistent(temp, tasks, current[k := target], vms);
  }

  /** One iteration (lines 52-88): the task `moves.0` (by position in task
      order) is proposed for the `moves.1`-th of the other VMs, which is never
      its current one. The move is taken, together with the predicted cache,
      exactly when the makespan of the moved solution, which the delta
      prediction computes exactly, is strictly below the best so far. Either
      way the cache stays consistent with the solution and `bestMakespan`
      stays its makespan. */
  method Step(tasks: seq<Task>, vms: seq<VM>, current: seq<string>, cache: map<string, real>,
              bestMakespan: real, move: (nat, nat))
    returns (target: string, accept: bool, next: seq<string>, nextCache: map<string, real>,
             nextMakespan: real)
    requires ValidFleet(vms) && |vms| >= 2
    requires Climbing(tasks, vms, current, cache, bestMakespan)
    requires move.0 < |tasks| && move.1 < |vms| - 1
    ensures Climbing(tasks, vms, next, nextCache, nextMakespan)
    ensures target == Target(vms, current[move.0], move.1)
    ensures target in Names(vms) && target != current[move.0]
    ensures accept <==> Makespan(tasks, vms, current[move.0 := target]) < bestMakespan
    ensures accept ==> next == current[move.0 := target] && nextMakespan < bestMakespan
    ensures !accept ==> next == current && nextCache == cache && nextMakespan == bestMakespan
    ensures next == Advance(tasks, vms, current, move)
  {
    var k := move.0;
    var currentVm := current[k];
    target := Target(vms, currentVm, move.1);
    var temp := Predict(cache, tasks[k], currentVm, target, vms);
    var newMakespan := MaxLoad(temp, vms);
    accept := newMakespan < bestMakespan;
    MoveKeepsClimbing(tasks, vms, current, cache, bestMakespan, k, target);
    MakespanOfConsistent(cache, tasks, current, vms);
    MakespanOfConsistent(temp, tasks, current[k := target], vms);
    AdvanceByCache(tasks, vms, current, cache, bestMakespan, move);
    if accept {
      next, nextCache, nextMakespan := current[k := target], temp, newMakespan;
    } else {
      next, nextCache, nextMakespan := current, cache, bestMakespan;
    }
  }

  /** The makespan of a solution: the largest load it puts on a VM. */
  function Makespan(tasks: seq<Task>, vms: seq<VM>, sol: seq<string>): real
    requires |sol| == |tasks| && PositiveCores(vms) && |vms| > 0
  {
    MaxOf(Loads(Zip(tasks, sol), vms))
  }

  /** Every drawn move names a task and one of the other VMs. */
  predicate ValidMoves(moves: seq<(nat, nat)>, tasks: seq<Task>, vms: seq<VM>)
  {
    forall i :: 0 <= i < |moves| ==> moves[i].0 < |tasks| && moves[i].1 < |vms| - 1
  }

  /** One iteration's outcome (lines 52-88): task `move.0` moved to the
      `move.1`-th of the other VMs when that strictly lowers the makespan,
      and the solution unchanged otherwise. */
  function Advance(tasks: seq<Task>, vms: seq<VM>, sol: seq<string>, move: (nat, nat)): (next: seq<string>)
    requires ValidFleet(vms) && |vms| >= 1 && |sol| == |tasks| && OnFleet(sol, vms)
    requires move.0 < |tasks| && move.1 < |vms| - 1
    ensures |next| == |tasks| && OnFleet(next, vms)
    ensures Makespan(tasks, vms, next) <= Makespan(tasks, vms, sol)
    ensures next == sol || Makespan(tasks, vms, next) < Makespan(tasks, vms, sol)
  {
    var target := Target(vms, sol[move.0], move.1);
    var moved := sol[move.0 := target];
    assert OnFleet(moved, vms) by {
      assert forall k :: 0 <= k < |moved| ==> moved[k] == target || moved[k] == sol[k];
    }
    if Makespan(tasks, vms, moved) < Makespan(tasks, vms, sol) then moved else sol
  }

  /** Dropping the first drawn move leaves valid moves. */
  lemma ValidMovesTail(moves: seq<(nat, nat)>, tasks: seq<Task>, vms: seq<VM>)
    requires moves != [] && ValidMoves(moves, tasks, vms)
    ensures ValidMoves(moves[1..], tasks, vms)
  {
    assert forall i :: 0 <= i < |moves| - 1 ==> moves[1..][i] == moves[i + 1];
  }

  /** The climb of one restart (lines 48-88) as a function of the drawn
      moves, one `Advance` per move. The result is on the fleet and never
      has a larger makespan than where the climb started. */
  function ClimbFrom(tasks: seq<Task>, vms: seq<VM>, sol: seq<string>, moves: seq<(nat, nat)>)
    : (best: seq<string>)
    requires ValidFleet(vms) && |vms| >= 1 && |sol| == |tasks| && OnFleet(sol, vms)
    requires ValidMoves(moves, tasks, vms)
    ensures |best| == |tasks| && OnFleet(best, vms)
    decreases |moves|
  {
    if moves == [] then sol
    else
      var next := Advance(tasks, vms, sol, moves[0]);
      ValidMovesTail(moves, tasks, vms);
      ClimbFrom(tasks, vms, next, moves[1..])
  }

  /** A climb never ends above the makespan it started from, and it ends
      strictly below it unless it ends where it started. */
  lemma {:induction false} ClimbNoWorse(tasks: seq<Task>, vms: seq<VM>, sol: seq<string>,
                                        moves: seq<(nat, nat)>)
    requires ValidFleet(vms) && |vms| >= 1 && |sol| == |tasks| && OnFleet(sol, vms)
    requires ValidMoves(moves, tasks, vms)
    ensures var best := ClimbFrom(tasks, vms, sol, moves);
            best == sol || Makespan(tasks, vms, best) < Makespan(tasks, vms, sol)
    ensures Makespan(tasks, vms, ClimbFrom(tasks, vms, sol, moves)) <= Makespan(tasks, vms, sol)
    decreases |moves|
  {
    if moves != [] {
      ClimbFromStep(tasks, vms, sol, moves, 0);
      assert moves[0..] == moves;
      ClimbNoWorse(tasks, vms, Advance(tasks, vms, sol, moves[0]), moves[1..]);
    }
  }

  /** The climb over the moves from the `i`-th on is one `Advance` by the
      `i`-th move followed by the climb over the rest. */
  lemma ClimbFromStep(tasks: seq<Task>, vms: seq<VM>, sol: seq<string>, moves: seq<(nat, nat)>, i: nat)
    requires ValidFleet(vms) && |vms| >= 1 && |sol| == |tasks| && OnFleet(sol, vms)
    requires ValidMoves(moves, tasks, vms) && i < |moves|
    ensures ValidMoves(moves[i..], tasks, vms) && ValidMoves(moves[i + 1..], tasks, vms)
    ensures ClimbFrom(tasks, vms, sol, moves[i..])
         == ClimbFrom(tasks, vms, Advance(tasks, vms, sol, moves[i]), moves[i + 1..])
  {
    var here, rest := moves[i..], moves[i + 1..];
    assert here[0] == moves[i] && here[1..] == rest;
    assert forall j :: 0 <= j < |here| ==> here[j] == moves[i + j];
    assert forall j :: 0 <= j < |rest| ==> rest[j] == moves[i + 1 + j];
  }

  /** When no drawn move would be taken from the start, the climb stays
      where it is. */
  lemma {:induction false} ClimbWithoutImprovement(tasks: seq<Task>, vms: seq<VM>, sol: seq<string>,
                                                   moves: seq<(nat, nat)>)
    requires ValidFleet(vms) && |vms| >= 1 && |sol| == |tasks| && OnFleet(sol, vms)
    requires ValidMoves(moves, tasks, vms)
    requires forall i :: 0 <= i < |moves| ==> Advance(tasks, vms, sol, moves[i]) == sol
    ensures ClimbFrom(tasks, vms, sol, moves) == sol
    decreases |moves|
  {
    if moves != [] {
      var rest := moves[1..];
      assert forall i :: 0 <= i < |rest| ==> rest[i] == moves[i + 1];
      assert Advance(tasks, vms, sol, moves[0]) == sol;
      ClimbWithoutImprovement(tasks, vms, sol, rest);
    }
  }

  /** One restart (lines 36-88): from the starting solution, every iteration
      proposes one move and accepts it only on a strict improvement, so the
      best solution is always the current one. The result is the climb
      `ClimbFrom` gives for the drawn moves, and the returned makespan is its
      makespan. */
  method Climb(tasks: seq<Task>, vms: seq<VM>, iterations: nat, start: seq<string>,
               moves: seq<(nat, nat)>)
    returns (best: seq<string>, bestMakespan: real)
    requires ValidFleet(vms) && |vms| >= 1
    requires |start| == |tasks| && OnFleet(start, vms)
    requires |moves| == iterations && ValidMoves(moves, tasks, vms)
    ensures best == ClimbFrom(tasks, vms, start, moves)
    ensures bestMakespan == Makespan(tasks, vms, best)
  {
    var current := start;
    var cache := GetInitialLoads(tasks, current, vms);
    var currentMakespan := MaxLoad(cache, vms);
    MakespanOfConsistent(cache, tasks, current, vms);
    var localBest, localBestMakespan := current, currentMakespan;
    ghost var goal := ClimbFrom(tasks, vms, start, moves);
    assert moves[0..] == moves;

    for i := 0 to iterations
      invariant Climbing(tasks, vms, current, cache, localBestMakespan) && localBest == current
      invariant ValidMoves(moves[i..], tasks, vms)
      invariant ClimbFrom(tasks, vms, current, moves[i..]) == goal
    {
      ClimbFromStep(tasks, vms, current, moves, i);
      var target, accept;
      target, accept, localBest, cache, localBestMakespan := Step(tasks, vms, current, cache, localBestMakespan, moves[i]);
      current := localBest;
    }
    assert moves[iterations..] == [];
    MakespanOfConsistent(cache, tasks, current, vms);
    best, bestMakespan := localBest, localBestMakespan;
  }

  /** `current_solution = {task.id: random.choice(vm_names) for task in tasks}`
      with the draws given as VM indices. */
  function StartSolution(choices: seq<nat>, vms: seq<VM>): (sol: seq<string>)
    requires forall k :: 0 <= k < |choices| ==> choices[k] < |vms|
    ensures |sol| == |choices| && OnFleet(sol, vms)
    ensures forall k :: 0 <= k < |choices| ==> sol[k] == vms[choices[k]].name
  {
    seq(|choices|, k requires 0 <= k < |choices| => vms[choices[k]].name)
  }

  /** The makespan of the random start of every restart. */
  predicate StartsInRange(starts: seq<seq<nat>>, tasks: seq<Task>, vms: seq<VM>)
  {
    forall r :: 0 <= r < |starts| ==>
      |starts[r]| == |tasks| && forall k :: 0 <= k < |tasks| ==> starts[r][k] < |vms|
  }

  /** The climb of restart `r` from its random start. */
  function Restart(tasks: seq<Task>, vms: seq<VM>, starts: seq<seq<nat>>, moves: seq<seq<(nat, nat)>>,
                   r: nat): (best: seq<string>)
    requires ValidFleet(vms) && |vms| >= 1 && StartsInRange(starts, tasks, vms)
    requires r < |starts| && r < |moves| && ValidMoves(moves[r], tasks, vms)
    ensures |best| == |tasks| && OnFleet(best, vms)
  {
    ClimbFrom(tasks, vms, StartSolution(starts[r], vms), moves[r])
  }

  /** The draws of every restart fit the tasks and the fleet: one random
      start and one sequence of moves per restart. */
  predicate Drawn(tasks: seq<Task>, vms: seq<VM>, starts: seq<seq<nat>>, moves: seq<seq<(nat, nat)>>)
  {
    ValidFleet(vms) && (|starts| > 0 ==> |vms| >= 1) && StartsInRange(starts, tasks, vms)
    && |moves| == |starts| && forall r :: 0 <= r < |moves| ==> ValidMoves(moves[r], tasks, vms)
  }

  /** `makespans` records, in order, the makespans of the climbs of the
      first restarts. */
  predicate Records(tasks: seq<Task>, vms: seq<VM>, starts: seq<seq<nat>>, moves: seq<seq<(nat, nat)>>,
                    makespans: seq<real>)
    requires Drawn(tasks, vms, starts, moves) && |makespans| <= |starts|
  {
    forall r :: 0 <= r < |makespans| ==> makespans[r] == Makespan(tasks, vms, Restart(tasks, vms, starts, moves, r))
  }

  /** Recording the makespan of the next restart's climb keeps the record. */
  lemma RecordsExtend(tasks: seq<Task>, vms: seq<VM>, starts: seq<seq<nat>>, moves: seq<seq<(nat, nat)>>,
                      makespans: seq<real>, next: real)
    requires Drawn(tasks, vms, starts, moves) && |makespans| < |starts|
    requires Records(tasks, vms, starts, moves, makespans)
    requires next == Makespan(tasks, vms, Restart(tasks, vms, starts, moves, |makespans|))
    ensures Records(tasks, vms, starts, moves, makespans + [next])
  {
    var all := makespans + [next];
    forall r | 0 <= r < |all|
      ensures all[r] == Makespan(tasks, vms, Restart(tasks, vms, starts, moves, r))
    {
      if r < |makespans| {
        assert all[r] == makespans[r];
      } else {
        assert all[r] == next;
      }
    }
  }

  /** No restart's climb ends above the makespan of its random start. */
  lemma MakespansNoWorse(tasks: seq<Task>, vms: seq<VM>, starts: seq<seq<nat>>, moves: seq<seq<(nat, nat)>>,
                         makespans: seq<real>)
    requires Drawn(tasks, vms, starts, moves) && |makespans| <= |starts|
    requires Records(tasks, vms, starts, moves, makespans)
    ensures forall r :: 0 <= r < |makespans| ==>
              makespans[r] <= Makespan(tasks, vms, StartSolution(starts[r], vms))
  {
    forall r | 0 <= r < |makespans|
      ensures makespans[r] <= Makespan(tasks, vms, StartSolution(starts[r], vms))
    {
      ClimbNoWorse(tasks, vms, StartSolution(starts[r], vms), moves[r]);
    }
  }

  /** The first index of least value in a sequence extended by one value. */
  lemma ArgMinAppend(s: seq<real>, x: real)
    requires |s| > 0
    ensures ArgMin(s + [x]) == if x < s[ArgMin(s)] then |s| else ArgMin(s)
  {
    assert (s + [x])[..|s|] == s;
  }

  /** The state of the restart loop after `n` restarts: `makespans` records
      the makespans of their climbs, and unless there were none the global
      best is the climb of the first restart of least makespan, with its
      makespan and its assignment. */
  predicate Leading(tasks: seq<Task>, vms: seq<VM>, starts: seq<seq<nat>>, moves: seq<seq<(nat, nat)>>, n: nat,
                    makespans: seq<real>, result: Option<map<int, string>>, solution: seq<string>,
                    makespan: real, winner: nat)
    requires DistinctIds(tasks) && Drawn(tasks, vms, starts, moves) && n <= |starts|
  {
    |makespans| == n && Records(tasks, vms, starts, moves, makespans)
    && (result.None? <==> n == 0)
    && (n > 0 ==>
          winner == ArgMin(makespans) && solution == Restart(tasks, vms, starts, moves, winner)
          && makespan == makespans[winner] && result == Some(Assignment(tasks, solution)))
  }
}
