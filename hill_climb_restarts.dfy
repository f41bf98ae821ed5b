/** The restarts of the stochastic hill climber (`stochastic_hill_climb`,
    lines 31-95): one climb per restart from its random start, and the
    global best kept across them. */
module HillClimbRestarts {
  import opened Domain
  import opened Stats
  import opened HillClimb

  /** Lines 93-95: the first restart's result, or a later one with a
      strictly smaller makespan, becomes the global best. The global best
      is thus always the restart that comes first among those of least
      makespan. */
  method UpdateGlobalBest(tasks: seq<Task>, result: Option<map<int, string>>,
                          solution: seq<string>, makespan: real, ghost makespans: seq<real>,
                          ghost winner: nat, local: seq<string>, localMakespan: real)
    returns (result': Option<map<int, string>>, solution': seq<string>, makespan': real,
             ghost winner': nat)
    requires DistinctIds(tasks) && |local| == |tasks|
    requires makespans == [] <==> result.None?
    requires makespans != [] ==> |solution| == |tasks| && winner == ArgMin(makespans) && makespan == makespans[winner]
                                 && result == Some(Assignment(tasks, solution))
    ensures |solution'| == |tasks|
    ensures var all := makespans + [localMakespan];
            winner' == ArgMin(all) && makespan' == all[winner'] && result' == Some(Assignment(tasks, solution'))
    ensures winner' == |makespans| ==> solution' == local
    ensures winner' < |makespans| ==> solution' == solution && winner' == winner
  {
    if result.None? || localMakespan < makespan {
      result', solution', makespan', winner' := Some(Assignment(tasks, local)), local, localMakespan, |makespans|;
    } else {
      result', solution', makespan', winner' := result, solution, makespan, winner;
    }
    if makespans != [] {
      ArgMinAppend(makespans, localMakespan);
    }
  }

  /** Lines 36-95 for restart `r`: its climb from its random start, then the
      global best update. */
  method RunRestart(tasks: seq<Task>, vms: seq<VM>, iterations: nat, starts: seq<seq<nat>>,
                    moves: seq<seq<(nat, nat)>>, r: nat, result: Option<map<int, string>>,
                    solution: seq<string>, makespan: real, ghost makespans: seq<real>, ghost winner: nat)
    returns (result': Option<map<int, string>>, solution': seq<string>, makespan': real,
             ghost makespans': seq<real>, ghost winner': nat)
    requires DistinctIds(tasks) && Drawn(tasks, vms, starts, moves) && r < |starts| && |moves[r]| == iterations
    requires Leading(tasks, vms, starts, moves, r, makespans, result, solution, makespan, winner)
    ensures Leading(tasks, vms, starts, moves, r + 1, makespans', result', solution', makespan', winner')
  {
    var start := StartSolution(starts[r], vms);
    var local, localMakespan := Climb(tasks, vms, iterations, start, moves[r]);
    assert local == Restart(tasks, vms, starts, moves, r);
    result', solution', makespan', winner' :=
      UpdateGlobalBest(tasks, result, solution, makespan, makespans, winner, local, localMakespan);
    makespans' := makespans + [localMakespan];
    RecordsExtend(tasks, vms, starts, moves, makespans, localMakespan);
    if winner' == r {
      assert solution' == Restart(tasks, vms, starts, moves, winner');
    } else {
      assert solution' == solution && winner' == winner;
    }
  }

  /** What the restarts establish: each recorded makespan is that of its
      restart's climb and no worse than its start, and the global best is
      the assignment of the first restart of least makespan. */
  lemma RestartedFacts(tasks: seq<Task>, vms: seq<VM>, restarts: nat, starts: seq<seq<nat>>,
                       moves: seq<seq<(nat, nat)>>, result: Option<map<int, string>>, best: seq<string>,
                       makespans: seq<real>, winner: nat, makespan: real)
    requires DistinctIds(tasks) && Drawn(tasks, vms, starts, moves) && restarts == |starts|
    requires Leading(tasks, vms, starts, moves, restarts, makespans, result, best, makespan, winner)
    ensures result.None? <==> restarts == 0
    ensures forall r :: 0 <= r < restarts ==>
              makespans[r] == Makespan(tasks, vms, Restart(tasks, vms, starts, moves, r))
              && makespans[r] <= Makespan(tasks, vms, StartSolution(starts[r], vms))
    ensures result.Some? ==>
              winner < restarts && best == Restart(tasks, vms, starts, moves, winner)
              && result.value == Assignment(tasks, best) && Total(result.value, tasks, vms)
              && makespans[winner] == MinOf(makespans)
              && forall r :: 0 <= r < winner ==> makespans[winner] < makespans[r]
  {
    MakespansNoWorse(tasks, vms, starts, moves, makespans);
    if restarts > 0 {
      AssignmentOnFleet(tasks, best, vms);
    }
  }

  /** `stochastic_hill_climb`. Nothing is returned when there are no
      restarts; otherwise the result is the assignment of the climb of
      restart `winner`: the first restart whose makespan is the least of
      all the restarts' makespans, each of which is the makespan of its
      climb and no worse than its random start. */
  method StochasticHillClimb(tasks: seq<Task>, vms: seq<VM>, iterations: nat, restarts: nat,
                             starts: seq<seq<nat>>, moves: seq<seq<(nat, nat)>>)
    returns (result: Option<map<int, string>>, ghost best: seq<string>, ghost makespans: seq<real>,
             ghost winner: nat)
    requires DistinctIds(tasks) && ValidFleet(vms)
    requires restarts > 0 ==> |vms| >= 1
    requires |starts| == restarts && StartsInRange(starts, tasks, vms)
    requires |moves| == restarts
    requires forall r :: 0 <= r < restarts ==> |moves[r]| == iterations && ValidMoves(moves[r], tasks, vms)
    ensures result.None? <==> restarts == 0
    ensures |makespans| == restarts
    ensures forall r :: 0 <= r < restarts ==>
              makespans[r] == Makespan(tasks, vms, Restart(tasks, vms, starts, moves, r))
              && makespans[r] <= Makespan(tasks, vms, StartSolution(starts[r], vms))
    ensures result.Some? ==>
              winner < restarts && best == Restart(tasks, vms, starts, moves, winner)
              && result.value == Assignment(tasks, best) && Total(result.value, tasks, vms)
              && makespans[winner] == MinOf(makespans)
              && forall r :: 0 <= r < winner ==> makespans[winner] < makespans[r]
  {
    var globalBest;
    assert Drawn(tasks, vms, starts, moves);
    result, best, globalBest, makespans, winner := RestartLoop(tasks, vms, iterations, restarts, starts, moves);
    RestartedFacts(tasks, vms, restarts, starts, moves, result, best, makespans, winner, globalBest);
  }

  /** Lines 31-95: the restarts in turn, each followed by the global best
      update. The global best ends as the climb of the first restart of
      least makespan. */
  method RestartLoop(tasks: seq<Task>, vms: seq<VM>, iterations: nat, restarts: nat,
                     starts: seq<seq<nat>>, moves: seq<seq<(nat, nat)>>)
    returns (result: Option<map<int, string>>, globalSolution: seq<string>, globalBest: real,
             ghost makespans: seq<real>, ghost winner: nat)
    requires DistinctIds(tasks) && Drawn(tasks, vms, starts, moves) && |starts| == restarts
    requires forall r :: 0 <= r < restarts ==> |moves[r]| == iterations
    ensures Leading(tasks, vms, starts, moves, restarts, makespans, result, globalSolution, globalBest, winner)
  {
    result, makespans, winner := None, [], 0;
    globalBest, globalSolution := 0.0, [];
    for r := 0 to restarts
      invariant Leading(tasks, vms, starts, moves, r, makespans, result, globalSolution, globalBest, winner)
    {
      result, globalSolution, globalBest, makespans, winner :=
        RunRestart(tasks, vms, iterations, starts, moves, r, result, globalSolution, globalBest, makespans, winner);
    }
  }

  /** A solution on the fleet gives a total assignment. */
  lemma AssignmentOnFleet(tasks: seq<Task>, sol: seq<string>, vms: seq<VM>)
    requires DistinctIds(tasks) && |sol| == |tasks| && OnFleet(sol, vms)
    ensures Total(Assignment(tasks, sol), tasks, vms)
  {
    var a := Assignment(tasks, sol);
    forall id | id in a
      ensures a[id] in Names(vms)
    {
      var i :| 0 <= i < |tasks| && tasks[i].id == id;
    }
  }
}
