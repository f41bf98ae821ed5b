# Cloud task schedulers: a Dafny model

The repository schedules a list of tasks onto a fleet of virtual machines in three ways and compares them:

- **Cloudy-GSA** (`cloudy_gsa_algorithm.py`) is a gravitational search over continuous positions. Positions are decoded into VM indices. The search has:
  - a three-objective fitness;
  - local search on the five best particles;
  - random mutation of every particle;
  - elitism;
  - an anti-stagnation reset of the gravitational constant.
- **Stochastic hill climbing with restarts** (`shc_algo.py`) moves one random task at a time. A move is accepted only when it strictly lowers the makespan, which is evaluated through a per-VM load cache updated by a delta.
- **Round robin** (`rr_algo.py`) puts the i-th task on VM `i mod n`.

The experiment driver (`scheduler.py`) turns the lines of a dataset file into task records. A line's class `index` must be an integer from 1 to 10. The task's work is `index * index * 10000`.

All three schedulers share one cost model:

- a task runs on a VM for `cpu_load / cpu_cores`;
- a VM's load is the sum of these times over its tasks.

In the model this is `Workload.LoadOn`, over `(task, vm name)` entries. The model works on real numbers. An assignment is a map from task id to VM name.

Every random draw and every quantity the model does not compute is an input:

- the initial swarm;
- the acceleration the force law gives each particle;
- the decayed gravitational constant of each iteration;
- the mutation draws;
- the hill climber's starting solutions and moves;
- the standard deviation and the fitness;
- `int()` of a dataset line.

Each loop of the source is a method proved equal to a functional definition of what it computes:

| loop | method | definition |
|---|---|---|
| local search | `CloudyGsa.IntelligentLocalSearch` | `LocalSearch` |
| GSA main loop | `CloudyGsaScheduler.MainLoop` | `After`, iterating `Next` |
| one hill-climbing restart | `HillClimb.Climb` | `ClimbFrom`, folding `Advance` |
| the restarts | `HillClimbRestarts.RestartLoop` | `Leading` over `Restart` |
| round robin | `RoundRobin.RoundRobinAlgorithm` | `Cyclic` |
| dataset lines | `Scheduler.LoadTasks` | `KeptTasks` |

The properties are then proved about those definitions.

Modules:

| module | file | models |
|---|---|---|
| `Domain` | `domain.dfy` | tasks, VMs, id and name sets, the `tasks_dict` and `vms_dict` lookups, assignments |
| `Stats` | `stats.dfy` | `max`, `min`, `argmax`, `argmin` (first index), `sum` |
| `Workload` | `workload.dfy` | execution time, per-VM loads, the `{name: load}` dictionary and its maximum |
| `CloudyGsa` | `cloudy_gsa.dfy` | `_get_vm_loads`, `_evaluate_fitness`, `_compute_mass`, `_map_to_solution`, `_intelligent_local_search` |
| `CloudyGsaScheduler` | `cloudy_gsa_scheduler.dfy` | the main loop of `cloudy_gsa_scheduler` and its output |
| `HillClimb` | `hill_climb.dfy` | `get_initial_loads`, one restart of `stochastic_hill_climb` |
| `HillClimbRestarts` | `hill_climb_restarts.dfy` | the restarts of `stochastic_hill_climb` and its result |
| `RoundRobin` | `round_robin.dfy` | `round_robin_algorithm`, `get_final_makespan` |
| `Scheduler` | `scheduler.dfy` | `get_task_load`, `load_tasks` over lines already read |

The model follows the code, with two exceptions. In each case the model uses the corrected behaviour, and "## Findings" records both the as-written behaviour and the correction:

- the task lookup of `_get_vm_loads` (line 34);
- the mutation draw on an empty task list (line 191).

Error paths the source raises on are modelled as `None` results where the model covers them. The rest, among them a VM with zero cores, are listed under "## Left out".

## Model

| member | source | states |
|---|---|---|
| Domain.TaskDict | cloudy_gsa_algorithm.py:137 | with distinct ids, the keys are exactly the ids and every id maps to its own task |
| Domain.Assignment | cloudy_gsa_algorithm.py:212-215 | keys are exactly the task ids, and the i-th task's id maps to the i-th name |
| Domain.IndexOfName | shc_algo.py:27 | the `vms_dict[name]` lookup finds a VM of that name and no later VM has it, so it is the last one in the fleet, as the dictionary comprehension keeps |
| Domain.IndexOfOwnName | rr_algo.py:30 | with distinct names, looking up a VM's own name gives back that VM |
| Stats.ArgMax | cloudy_gsa_algorithm.py:92 | an index of a largest value, and no earlier index holds it (NumPy's first-index rule) |
| Stats.ArgMin | cloudy_gsa_algorithm.py:93 | an index of a smallest value, and no earlier index holds it |
| Stats.MaxOf | shc_algo.py:41 | `max` is an element of the sequence and no element exceeds it |
| Stats.MinOf | cloudy_gsa_algorithm.py:68 | `min` is an element of the sequence and no element is below it |
| Workload.LoadOnAppend | shc_algo.py:12-15 | loads add up over concatenated entry lists |
| Workload.LoadOnPermutation | rr_algo.py:12-16 | any reordering of the solution's items gives the same load, so dictionary order does not matter |
| Workload.LoadsPermutation | shc_algo.py:12-15 | the whole per-VM load vector is independent of item order |
| Workload.LoadOnNonNegative | cloudy_gsa_algorithm.py:38-39 | tasks with non-negative work give non-negative loads |
| Workload.LoadOnMove | shc_algo.py:59-70 | moving one task changes a VM's load by minus its share on the old VM plus its share on the new one |
| Workload.AccumulateLoads | shc_algo.py:11-15 | the built dictionary has exactly one key per VM name, and each value is the load of that VM's tasks |
| Workload.MaxLoad | rr_algo.py:18 | `max(vm_loads.values())` is at least every VM's value and equal to one of them |
| Workload.MaxLoadOfLoadMap | shc_algo.py:40-41 | the maximum of a load dictionary is the makespan of the solution it was built from |
| CloudyGsa.GetVmLoads | cloudy_gsa_algorithm.py:28-41 | the accumulated array is the per-VM load vector of the solution, with the i-th task taken by position |
| CloudyGsa.ShareOnIndex | cloudy_gsa_algorithm.py:35-39 | with distinct names, a task adds to VM v exactly when its entry is v |
| CloudyGsa.TaskAtAsWritten | cloudy_gsa_algorithm.py:34 | the id lookup finds a task exactly when some task has that id, and then it is that task |
| CloudyGsa.AsWrittenAgreesOnPositions | cloudy_gsa_algorithm.py:34 | when ids are positions, the id lookup finds the task at that position |
| CloudyGsa.IdleTime | cloudy_gsa_algorithm.py:56 | total idle time is never negative, and is zero exactly when every VM is as loaded as the busiest |
| CloudyGsa.Fitness | cloudy_gsa_algorithm.py:58-60 | with a non-negative deviation term, the score is at least the makespan |
| CloudyGsa.EvaluateFitness | cloudy_gsa_algorithm.py:43-62 | a solution's score is at least its makespan whenever the deviation is non-negative |
| CloudyGsa.FitnessOrderIndependent | cloudy_gsa_algorithm.py:47-60 | the score depends on the (task, VM) pairs only as a multiset |
| CloudyGsa.SingleVmFitness | cloudy_gsa_algorithm.py:50-60 | on a one-VM fleet, the VM's load is the total cost of all tasks on it; the idle term vanishes, so the score is that load plus the weighted deviation |
| CloudyGsa.RawMass | cloudy_gsa_algorithm.py:68-72 | raw masses are non-negative, the best particle gets 1 and the worst 0, and a better fitness never gets less |
| CloudyGsa.Normalise | cloudy_gsa_algorithm.py:73-74 | dividing by the positive total keeps masses non-negative, keeps zeros and keeps their order |
| CloudyGsa.ComputeMass | cloudy_gsa_algorithm.py:66-74 | masses are a uniform `1/len` when the spread is below `EPS`; otherwise the worst particle gets 0; no mass is negative, and a better fitness never gets less |
| CloudyGsa.MassSumUniform | cloudy_gsa_algorithm.py:69-70 | in the uniform case the masses sum to exactly one |
| CloudyGsa.MassSumSpread | cloudy_gsa_algorithm.py:72-74 | otherwise the masses sum to strictly between `1 - EPS` and 1 |
| CloudyGsa.RoundHalfEven | cloudy_gsa_algorithm.py:78 | `np.round` lands within one half of its argument, and an exact tie goes to the even integer |
| CloudyGsa.RoundIsNearest | cloudy_gsa_algorithm.py:78 | no integer is nearer to the argument than its rounding |
| CloudyGsa.MapToSolution | cloudy_gsa_algorithm.py:76-78 | decoding keeps the length, yields VM indices only, and only rounds a coordinate that is already in range |
| CloudyGsa.DecodeOfIntegerPosition | cloudy_gsa_algorithm.py:185-187 | decoding a discrete solution written back as a position gives the same solution |
| CloudyGsa.TasksOn | cloudy_gsa_algorithm.py:97-98 | exactly the positions whose entry is v, increasing |
| CloudyGsa.Moves | cloudy_gsa_algorithm.py:103-109 | trying each busiest-VM task on the idlest VM, keeping strict improvements, yields a valid solution scored by its own fitness that is either the input or strictly better |
| CloudyGsa.SwapRow | cloudy_gsa_algorithm.py:114-120 | swapping one busiest-VM task with each idlest-VM task in turn has the same descent property |
| CloudyGsa.Swaps | cloudy_gsa_algorithm.py:112-120 | the swap phase over every pair has the same descent property |
| CloudyGsa.TryMoves | cloudy_gsa_algorithm.py:103-109 | the move loop computes exactly `Moves`, so it never ends worse than it started |
| CloudyGsa.TrySwaps | cloudy_gsa_algorithm.py:112-120 | the swap loop computes exactly `Swaps` |
| CloudyGsa.Search | cloudy_gsa_algorithm.py:90-120 | the rounds of move and swap, with both early exits, keep the descent property |
| CloudyGsa.LocalSearch | cloudy_gsa_algorithm.py:82-122 | same length, VM indices only, never worse, and either the input or strictly better |
| CloudyGsa.NothingToMove | cloudy_gsa_algorithm.py:95-100 | when the busiest VM is also the idlest or runs nothing, the search returns its input |
| CloudyGsa.IntelligentLocalSearch | cloudy_gsa_algorithm.py:82-122 | the nested loops compute exactly `LocalSearch` |
| CloudyGsaScheduler.ClampVelocity | cloudy_gsa_algorithm.py:176 | the clipped component lies in `[-2, 2]` and is unchanged if it already did |
| CloudyGsaScheduler.ClipCoordinate | cloudy_gsa_algorithm.py:178 | the clipped coordinate lies in `[0, n_vms - 1]` and is unchanged if it already did |
| CloudyGsaScheduler.NewVelocity | cloudy_gsa_algorithm.py:175-176 | every velocity component ends within the clamp |
| CloudyGsaScheduler.NewPosition | cloudy_gsa_algorithm.py:177-178 | every moved particle lies inside the search box |
| CloudyGsaScheduler.RankedStep | cloudy_gsa_algorithm.py:181 | adding the best particle not yet picked keeps the picked list duplicate-free, in range, and no worse than anything left out |
| CloudyGsaScheduler.FirstBest | cloudy_gsa_algorithm.py:181 | the scan finds the first particle of least score among those not yet picked, or -1 when none is left |
| CloudyGsaScheduler.BestRanked | cloudy_gsa_algorithm.py:181-184 | `min(5, P)` distinct particle indices, none worse than any particle left out |
| CloudyGsaScheduler.RandInt | cloudy_gsa_algorithm.py:191-192 | `np.random.randint(n)` gives an integer below n from a uniform draw, and fails exactly when n is not positive |
| CloudyGsaScheduler.MutationAsWritten | cloudy_gsa_algorithm.py:190-193 | no mutation when the draw is at least the rate; otherwise the draws raise exactly when there are no tasks or no VMs, and else mutate a task below `n_tasks` to a VM below `n_vms` |
| CloudyGsaScheduler.NoTasksMutationRaises | cloudy_gsa_algorithm.py:190-191 | with no tasks, a firing mutation raises |
| CloudyGsaScheduler.DrawMutation | cloudy_gsa_algorithm.py:190-193 | a mutation is drawn exactly when it fires and there is a task and a VM; it is in range, and it agrees with the as-written draw whenever that one mutates |
| CloudyGsaScheduler.Polished | cloudy_gsa_algorithm.py:184-187 | a picked particle becomes its decoded local-search result, which never scores worse; an unpicked one is unchanged; the box is kept |
| CloudyGsaScheduler.Mutate | cloudy_gsa_algorithm.py:189-193 | a mutation sets only its task's coordinate, to its VM; without one the particle is unchanged; the box is kept |
| CloudyGsaScheduler.ImprovedAt | cloudy_gsa_algorithm.py:182-193 | particle p of the improved swarm is its polished position, then mutated |
| CloudyGsaScheduler.ImproveOne | cloudy_gsa_algorithm.py:184-195 | the particle becomes its polished and mutated position, and is scored by the fitness of its decoding; a picked, unmutated particle never scores worse |
| CloudyGsaScheduler.ImproveParticles | cloudy_gsa_algorithm.py:181-195 | the swarm becomes the improved swarm, and every score is the fitness of its particle's decoding |
| CloudyGsaScheduler.Elitism | cloudy_gsa_algorithm.py:197-207 | the global best never gets worse, and it is the iteration's best when that is strictly better; otherwise the worst particle is overwritten by the global best position |
| CloudyGsaScheduler.ElitismKeepsWitness | cloudy_gsa_algorithm.py:197-207 | after elitism, the recorded global best value is still the fitness of the decoded global best position |
| CloudyGsaScheduler.ElitismRecords | cloudy_gsa_algorithm.py:197-207 | without improvement, the worst particle holds the global best position; every particle not overwritten keeps a score equal to its decoded fitness |
| CloudyGsaScheduler.CounterWithoutImprovement | cloudy_gsa_algorithm.py:158-160 | with no improvement, the stagnation counter after n iterations is `(n - 1) mod 75 + 1` |
| CloudyGsaScheduler.ResetsWithoutImprovement | cloudy_gsa_algorithm.py:157-160 | with no improvement, G is reset exactly at iterations 75, 150, 225, … |
| CloudyGsaScheduler.ImprovementClearsCounter | cloudy_gsa_algorithm.py:202 | a strict improvement leaves the counter at zero, whatever came before |
| CloudyGsaScheduler.ResetsExtend | cloudy_gsa_algorithm.py:157-160 | one more iteration adds one reset flag, set exactly when the counter had reached 75, and advances the counter by the reset and count rule |
| CloudyGsaScheduler.BestAssignment | cloudy_gsa_algorithm.py:211-215 | the output is total over the task ids, and the i-th task's id maps to the VM its decoded entry names |
| CloudyGsaScheduler.ImprovementsExtend | cloudy_gsa_algorithm.py:199-206 | recording an iteration that does not raise the best keeps the history non-increasing, with outcomes marking the strict drops |
| CloudyGsaScheduler.Initial | cloudy_gsa_algorithm.py:140-147 | the initial swarm is scored by its decoded fitness, and the global best is the least initial score, witnessed by its particle |
| CloudyGsaScheduler.Next | cloudy_gsa_algorithm.py:154-207 | one iteration keeps the swarm in the box, the global best witnessed and at most every score, and never raises the global best |
| CloudyGsaScheduler.NextFacts | cloudy_gsa_algorithm.py:154-207 | in one iteration, G and the counter follow the reset rule and velocities follow the update; `improved` holds exactly on a strict drop, and then the global best is the least new score; otherwise the global best is kept and the worst particle holds its position; every score not overwritten is its particle's fitness |
| CloudyGsaScheduler.Iterate | cloudy_gsa_algorithm.py:154-207 | the loop body computes exactly one `Next` step |
| CloudyGsaScheduler.After | cloudy_gsa_algorithm.py:154-207 | any number of iterations from a valid state gives a valid state |
| CloudyGsaScheduler.AfterNoWorse | cloudy_gsa_algorithm.py:197-207 | the global best after n iterations is at most the one after any k ≤ n |
| CloudyGsaScheduler.FinalBelowAll | cloudy_gsa_algorithm.py:143-207 | the final global best is at most every particle's score at every iteration |
| CloudyGsaScheduler.MainStep | cloudy_gsa_algorithm.py:154-207 | one more iteration extends the history, outcomes, counter and reset flags consistently with the next state |
| CloudyGsaScheduler.MainLoop | cloudy_gsa_algorithm.py:154-207 | the loop ends in the state `After` gives for all iterations; the history runs from the initial to the final best, never increasing, and resets follow `Resets` |
| CloudyGsaScheduler.Schedule | cloudy_gsa_algorithm.py:127-217 | the reported best is the decoded final global best, with its fitness, and is at most every particle's score at every iteration; the output is total and maps each task to its decoded VM, and is empty with no tasks; the history starts at the best initial score and never increases, outcomes mark strict drops, and G resets where `Resets` places them |
| CloudyGsaScheduler.NoTasksNoKeys | cloudy_gsa_algorithm.py:212-215 | with no tasks, a total assignment is empty |
| CloudyGsaScheduler.SkippedLineMisleadsLookup | cloudy_gsa_algorithm.py:34 | once a dataset line is skipped before a kept one, some position's id lookup does not give the task at that position |
| CloudyGsaScheduler.SkippedLineBreaksLookup | cloudy_gsa_algorithm.py:34 | for the dataset "x", "1" the single task has id 1, and the lookup of position 0 finds nothing |
| HillClimb.NameListHasNames | shc_algo.py:29 | the name list and the name set hold the same names |
| HillClimb.GetInitialLoads | shc_algo.py:9-16 | one key per VM, and each value is the load of that VM's tasks under the solution |
| HillClimb.OtherVms | shc_algo.py:55 | exactly the names other than the current one, and the whole list when the current one is absent |
| HillClimb.OtherVmsLength | shc_algo.py:55 | among distinct names containing the current one, one fewer names remain, so two VMs always leave a target |
| HillClimb.Target | shc_algo.py:55 | the chosen target is a VM of the fleet other than the current one |
| HillClimb.MakespanOfConsistent | shc_algo.py:41 | the maximum of a consistent cache is the solution's makespan |
| HillClimb.PredictConsistent | shc_algo.py:59-79 | the delta-updated cache is exactly the cache of the moved solution |
| HillClimb.MoveKeepsClimbing | shc_algo.py:83-86 | taking a move keeps the solution on the fleet with a consistent cache |
| HillClimb.PredictedMakespan | shc_algo.py:59-80 | the tracked best makespan is the solution's, and the predicted `new_makespan` is the true makespan of the moved solution |
| HillClimb.AdvanceDecides | shc_algo.py:52-88 | an iteration moves the task exactly when the moved solution's makespan is strictly below the current one |
| HillClimb.AdvanceByCache | shc_algo.py:59-88 | deciding by the delta-updated cache, as the source does, gives the same step |
| HillClimb.Advance | shc_algo.py:52-88 | one iteration keeps the solution on the fleet, never raises the makespan, and changes the solution only by strictly lowering it |
| HillClimb.Step | shc_algo.py:52-88 | the target is the drawn VM among the others, so never the current one; the move is taken exactly when the moved solution's true makespan is strictly below the best; a rejected move changes nothing; the result is `Advance`; the cache stays consistent and the best makespan stays the maximum load |
| HillClimb.ClimbFrom | shc_algo.py:48-88 | the iterations of a restart keep the solution on the fleet |
| HillClimb.ClimbNoWorse | shc_algo.py:48-88 | a restart's climb ends at its start or strictly below it, and never above |
| HillClimb.ClimbWithoutImprovement | shc_algo.py:83-88 | when no drawn move improves the start, the climb ends at the start |
| HillClimb.Climb | shc_algo.py:36-88 | the loop of a restart computes exactly `ClimbFrom` of its moves, and reports that solution's makespan |
| HillClimb.StartSolution | shc_algo.py:37 | every task is mapped to the name of its drawn VM |
| HillClimb.Restart | shc_algo.py:35-88 | restart r's result is a solution on the fleet |
| HillClimb.RecordsExtend | shc_algo.py:35-90 | recording each restart's local best makespan in turn keeps the record of the restarts so far |
| HillClimb.MakespansNoWorse | shc_algo.py:44-88 | no restart ends above the makespan of its random start |
| HillClimb.ArgMinAppend | shc_algo.py:93-95 | the first least makespan after one more restart is the new one exactly when it is strictly smaller |
| HillClimbRestarts.UpdateGlobalBest | shc_algo.py:93-95 | the first restart, or one strictly better, becomes the global best, which stays the first restart of least makespan so far |
| HillClimbRestarts.RunRestart | shc_algo.py:35-95 | one restart climbs from its start, records its makespan and keeps the global best the first restart of least makespan |
| HillClimbRestarts.RestartLoop | shc_algo.py:31-95 | after all restarts, the record holds every restart's makespan, and the global best is the first restart of least makespan |
| HillClimbRestarts.RestartedFacts | shc_algo.py:31-98 | each recorded makespan is its restart's climb and no worse than its start, and the result is the total assignment of the first restart of least makespan |
| HillClimbRestarts.StochasticHillClimb | shc_algo.py:20-98 | nothing is returned exactly when there are no restarts; each restart's makespan is that of its climb and no worse than its start; the result is the total assignment of the climb of the first restart of least makespan |
| HillClimbRestarts.AssignmentOnFleet | shc_algo.py:37 | a solution on the fleet gives a total assignment |
| RoundRobin.RoundRobinAlgorithm | rr_algo.py:22-47 | nothing exactly when there are tasks but no VMs, where `i % 0` raises; otherwise the built dictionary is the round-robin assignment of the inputs |
| RoundRobin.CyclicKeys | rr_algo.py:36-45 | the keys are exactly the task ids, so no tasks give an empty dictionary |
| RoundRobin.CyclicValues | rr_algo.py:42-45 | every value is the name of a VM of the fleet |
| RoundRobin.CyclicTotal | rr_algo.py:36-45 | the result is a total assignment |
| RoundRobin.CyclicValue | rr_algo.py:39-45 | the task at position i is on VM `i mod n` unless a later task has the same id |
| RoundRobin.CyclicOfDistinct | rr_algo.py:39-45 | with distinct ids, every task at position i is on VM `i mod n` |
| RoundRobin.AssignedIsResidues | rr_algo.py:39-45 | with distinct ids, VM j gets exactly the positions congruent to j |
| RoundRobin.Balanced | rr_algo.py:39-45 | with distinct ids, VM j gets `N / n` tasks, plus one if `j < N mod n`, so any two VMs' counts differ by at most one |
| RoundRobin.GetFinalMakespan | rr_algo.py:9-18 | nothing exactly when the fleet is empty (`max` of no values raises) or an item's task id or VM name is unknown (the lookups raise); otherwise the makespan of the solution, at least every VM's load and equal to one of them |
| Scheduler.GetTaskLoad | scheduler.py:36-38 | the work is never negative, is zero only for class 0, and is a multiple of 10000 |
| Scheduler.TaskLoadIncreasing | scheduler.py:36-38 | for positive classes, a heavier class carries strictly more work |
| Scheduler.TaskLoadRange | scheduler.py:50-53 | an accepted class carries between 10000 and 1000000 units |
| Scheduler.Decimal | scheduler.py:54 | `f"{n}"` is a non-empty digit string |
| Scheduler.DecimalRoundTrip | scheduler.py:54 | reading the decimal text of n gives n back |
| Scheduler.TaskNameInjective | scheduler.py:54 | a task name gives back its class and line number |
| Scheduler.LoadTasks | scheduler.py:40-64 | the built list is the list of records of the kept lines, in line order |
| Scheduler.KeptTasksSound | scheduler.py:47-60 | every task comes from a kept line and is exactly the record built for it: id is the line number, class is the parsed value, name and work are derived from both |
| Scheduler.KeptTasksIncreasing | scheduler.py:47-56 | ids increase strictly along the list, so they are distinct |
| Scheduler.KeptTasksIds | scheduler.py:49-62 | a line becomes a task exactly when it parses to an integer from 1 to 10 |
| Scheduler.KeptTasksDistinctNames | scheduler.py:54-56 | tasks on different lines have different names |
| Scheduler.SkippedLineShiftsIds | scheduler.py:47-62 | a skipped line before a kept one makes some task's id differ from its position |

## Left out

- The gravitational force law (cloudy_gsa_algorithm.py:163-174) and the decay `G0 * exp(-ALPHA * t / iterations)` (line 155) are not computed. Each iteration's accelerations and decayed G are inputs, because they are floating-point vector arithmetic on random numbers. The model does state where G is reset to `G0`.
- Random draws are inputs:
  - the initial swarm (line 140);
  - the uniform draws behind the mutations (lines 190-193);
  - `random.choice` in the hill climber (shc_algo.py:37, 53, 55).
- `np.std` (cloudy_gsa_algorithm.py:53) is a function parameter. The fitness the search and the local search use is an arbitrary `seq<int> -> real`. `CloudyGsa.EvaluateFitness` relates that parameter to the load vector.
- Floating point: loads, masses and positions are exact reals. Rounding error, `inf` and `nan` are not modelled. The `float('inf')` first global best of the hill climber is the `None` state of the result.
- CloudyGsa.GetVmLoads: takes the task at solution position i, where line 34 looks up `tasks_dict[i]` by id (see "## Findings"). So on `load_tasks` output with a skipped line, `CloudyGsaScheduler.Schedule` returns an assignment where the source raises `KeyError`.
- CloudyGsaScheduler.BestRanked: `np.argsort` (line 181) fixes an order, and its tie-breaking between equal scores is not the stable one. The contract states which particles are picked, not in what order. Each particle is handled independently, so the order does not change the results. Under ties, the picked set can differ from NumPy's.
- CloudyGsa.LocalSearch: the result is not stated to be a local optimum of the moves and swaps; the source's two rounds do not reach one either.
- CloudyGsa.EvaluateFitness: only the lower bound by the makespan is stated, because the standard deviation is abstract.
- The fitness vector is not re-scored after elitism overwrites the worst particle (cloudy_gsa_algorithm.py:207), and the model keeps that. The next iteration's ranking sees the overwritten particle's old score.
- Zero-core VMs: every scheduler requires a fleet whose VMs all have positive `cpu_cores` (`Domain.PositiveCores`, part of `Domain.ValidFleet`). A VM with `cpu_cores == 0` makes the source raise `ZeroDivisionError` (cloudy_gsa_algorithm.py:38, shc_algo.py:15 and 65-66, rr_algo.py:16). The model excludes that case instead of modelling it as `None`. The experiment driver only builds VMs with 1, 2, 4 or 8 cores (scheduler.py:246).
- Duplicate task ids or VM names: the source's dictionaries silently collapse them.
  - `CloudyGsaScheduler.Schedule`, `HillClimbRestarts.StochasticHillClimb` and `Domain.TaskDict` require distinct task ids.
  - Every scheduler requires distinct VM names.
  - `RoundRobin.RoundRobinAlgorithm` does model duplicate ids, where the last occurrence wins.
- HillClimbRestarts.StochasticHillClimb: the crashing inputs are excluded by its requires instead of being modelled as errors:
  - with restarts but an empty fleet, `random.choice` of no names (shc_algo.py:37) raises `IndexError`, or, with no tasks either, `max` of an empty dictionary (line 41) raises `ValueError`;
  - with iterations and no tasks, `random.choice` of no ids (line 53) raises `IndexError`;
  - with iterations and a single VM, `random.choice` of no other VMs (line 55) raises `IndexError`.
- CloudyGsaScheduler.Schedule: requires at least one VM. With an empty fleet the source raises while scoring the initial swarm: the name lookup at line 35 raises `IndexError`, or, with no tasks, `np.max` of the empty load array at line 50 raises `ValueError`.
- `load_tasks` reads nothing from disk. The lines are an input, and `int(line.strip())` is a parameter that gives `None` where Python raises `ValueError`. The existence check and `sys.exit` (scheduler.py:41-43) are omitted, because they are I/O.
- The rest of `scheduler.py` is not part of this model:
  - the asynchronous task executor;
  - the HTTP calls to the VMs;
  - the metrics, CSV output and environment configuration;
  - `main` and `run_single_test`.
- `start_time.py` is not part of this model either.
- The prints and timing messages in every algorithm are omitted, because they are output only.

## Findings

| source | as written | input that shows it | evidently intended | confidence | as-written member | corrected member |
|---|---|---|---|---|---|---|
| cloudy_gsa_algorithm.py:34 | `_get_vm_loads` takes the task of solution position `task_idx` as `tasks_dict[task_idx]`, a lookup by task id | a dataset with the lines "x" and "1": `load_tasks` (scheduler.py:47-62) skips the first line, so the only task has id 1; scoring any solution then looks up id 0 and raises `KeyError`; a skipped line before a kept one always shifts some id off its position | the task at position `task_idx` of the task list, as the output dictionary's `enumerate(tasks)` (lines 212-215) already assumes | not executed | CloudyGsaScheduler.SkippedLineBreaksLookup | CloudyGsa.GetVmLoads |
| cloudy_gsa_algorithm.py:190-193 | when a particle's mutation fires, `np.random.randint(n_tasks)` (line 191) draws the task to mutate | a task list with no tasks (a dataset without a line from 1 to 10): the first iteration in which any particle's draw at line 190 is below 0.02 calls `np.random.randint(0)`, which raises `ValueError`; over 50 particles per iteration this is almost certain | no mutation when there is no task to mutate, so an empty task list yields the empty assignment lines 212-215 build | not executed | CloudyGsaScheduler.NoTasksMutationRaises | CloudyGsaScheduler.DrawMutation |
