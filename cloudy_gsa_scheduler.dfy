/** The iteration loop of `cloudy_gsa_scheduler`: the swarm moves, the five
    best-ranked particles are polished by local search, particles may be
    mutated, every particle is re-scored, and the end-of-iteration elitism
    and anti-stagnation bookkeeping runs; at the end the global best
    position is decoded into the task-id to VM-name assignment.

    The gravitational force is not modelled: the acceleration of every
    particle, the decayed gravitational constant of every iteration and all
    random draws are inputs. */
module CloudyGsaScheduler {
  import opened Domain
  import opened Stats
  import opened CloudyGsa
  import Scheduler

  // ---------------------------------------------------------------------
  // Moving the swarm (range facts only)

  /** `np.clip(v, -VELOCITY_CLAMP, VELOCITY_CLAMP)` of one component. */
  function ClampVelocity(v: real): (r: real)
    ensures -VelocityClamp <= r <= VelocityClamp
    ensures -VelocityClamp <= v <= VelocityClamp ==> r == v
  {
    if v < -VelocityClamp then -VelocityClamp else if v > VelocityClamp then VelocityClamp else v
  }

  /** `np.clip(x, 0, n_vms - 1)` of one coordinate. */
  function ClipCoordinate(x: real, nVms: int): (r: real)
    requires nVms >= 1
    ensures 0.0 <= r <= (nVms - 1) as real
    ensures 0.0 <= x <= (nVms - 1) as real ==> r == x
  {
    if x < 0.0 then 0.0 else if x > (nVms - 1) as real then (nVms - 1) as real else x
  }

  /** Every coordinate of a position lies in `[0, n_vms - 1]`. */
  predicate InBox(position: seq<real>, nVms: int)
  {
    forall k :: 0 <= k < |position| ==> 0.0 <= position[k] <= (nVms - 1) as real
  }

  /** `vel = clip(INERTIA * vel + accel)` for one particle. */
  function NewVelocity(vel: seq<real>, accel: seq<real>): (v: seq<real>)
    requires |accel| == |vel|
    ensures |v| == |vel|
    ensures forall k :: 0 <= k < |v| ==> -VelocityClamp <= v[k] <= VelocityClamp
  {
    seq(|vel|, k requires 0 <= k < |vel| => ClampVelocity(Inertia * vel[k] + accel[k]))
  }

  /** `pos = clip(pos + vel, 0, n_vms - 1)` for one particle. */
  function NewPosition(position: seq<real>, vel: seq<real>, nVms: int): (p: seq<real>)
    requires |vel| == |position| && nVms >= 1
    ensures |p| == |position| && InBox(p, nVms)
  {
    seq(|position|, k requires 0 <= k < |position| => ClipCoordinate(position[k] + vel[k], nVms))
  }

  // ---------------------------------------------------------------------
  // Choosing the particles to polish

  /** The first particle of least fitness among the first `q` that are not
      in `picked`, or -1 when all of those are picked. */
  function FirstBestOutside(fitness: seq<real>, picked: seq<nat>, q: nat): (m: int)
    requires q <= |fitness|
    ensures -1 <= m < q
    ensures m == -1 ==> forall r :: 0 <= r < q ==> r in picked
    ensures m != -1 ==> m !in picked
    ensures m != -1 ==> forall r :: 0 <= r < q && r !in picked ==> fitness[m] <= fitness[r]
    decreases q
  {
    if q == 0 then -1
    else
      var m := FirstBestOutside(fitness, picked, q - 1);
      if q - 1 !in picked && (m == -1 || fitness[q - 1] < fitness[m]) then q - 1 else m
  }

  /** The first `n` particles of a stable ranking by fitness: each is the
      first best of those not ranked yet. */
  function Ranked(fitness: seq<real>, n: nat): seq<nat>
    decreases n
  {
    if n == 0 then []
    else
      var prev := Ranked(fitness, n - 1);
      var m := FirstBestOutside(fitness, prev, |fitness|);
      if m == -1 then prev else prev + [m]
  }

  /** A prefix of the ranking: distinct particles, none worse than a
      particle left out. */
  predicate RankedPrefix(fitness: seq<real>, picked: seq<nat>)
  {
    picked == Ranked(fitness, |picked|)
    && (forall a :: 0 <= a < |picked| ==> picked[a] < |fitness|)
    && (forall a, b :: 0 <= a < b < |picked| ==> picked[a] != picked[b])
    && forall p, q :: p in picked && 0 <= q < |fitness| && q !in picked ==> fitness[p] <= fitness[q]
  }

  /** Appending the first best particle not yet ranked extends the prefix. */
  lemma RankedStep(fitness: seq<real>, picked: seq<nat>)
    requires RankedPrefix(fitness, picked)
    requires FirstBestOutside(fitness, picked, |fitness|) != -1
    ensures var m := FirstBestOutside(fitness, picked, |fitness|);
            RankedPrefix(fitness, picked + [m as nat])
  {
    var m := FirstBestOutside(fitness, picked, |fitness|);
    var next := picked + [m as nat];
    assert Ranked(fitness, |next|) == next;
    forall p, q | p in next && 0 <= q < |fitness| && q !in next
      ensures fitness[p] <= fitness[q]
    {
      if p !in picked {
        assert p == m;
      }
    }
  }

  /** The scan for the first particle of least fitness among those not yet
      picked. */
  method FirstBest(fitness: seq<real>, picked: seq<nat>) returns (m: int)
    ensures m == FirstBestOutside(fitness, picked, |fitness|)
  {
    m := -1;
    for q := 0 to |fitness|
      invariant m == FirstBestOutside(fitness, picked, q)
    {
      if q !in picked && (m == -1 || fitness[q] < fitness[m]) {
        m := q;
      }
    }
  }

  /** `np.argsort(fitness)[:k]`: the first `min(k, P)` particles of the
      stable ranking, `min(k, P)` distinct particles, none of them worse than
      any particle left out. */
  method BestRanked(fitness: seq<real>, k: nat) returns (picked: seq<nat>)
    ensures picked == Ranked(fitness, if k < |fitness| then k else |fitness|)
    ensures |picked| == if k < |fitness| then k else |fitness|
    ensures forall a :: 0 <= a < |picked| ==> picked[a] < |fitness|
    ensures forall a, b :: 0 <= a < b < |picked| ==> picked[a] != picked[b]
    ensures forall p, q :: p in picked && 0 <= q < |fitness| && q !in picked
              ==> fitness[p] <= fitness[q]
  {
    var count := if k < |fitness| then k else |fitness|;
    picked := [];
    while |picked| < count
      invariant |picked| <= count && RankedPrefix(fitness, picked)
      decreases count - |picked|
    {
      var m := FirstBest(fitness, picked);
      if m == -1 {
        // every particle is picked already, which |picked| < count rules out
        PickedAll(picked, |fitness|);
        break;
      }
      RankedStep(fitness, picked);
      picked := picked + [m];
    }
  }

  /** Distinct naturals that include every index below `n` number at least `n`. */
  lemma {:induction false} PickedAll(picked: seq<nat>, n: nat)
    requires forall a, b :: 0 <= a < b < |picked| ==> picked[a] != picked[b]
    requires forall r :: 0 <= r < n ==> r in picked
    ensures |picked| >= n
    decreases n
  {
    if n > 0 {
      assert n - 1 in picked;
      var i :| 0 <= i < |picked| && picked[i] == n - 1;
      var rest := picked[..i] + picked[i + 1..];
      assert forall a :: 0 <= a < |rest| ==> rest[a] == picked[if a < i then a else a + 1];
      forall r | 0 <= r < n - 1
        ensures r in rest
      {
        assert r in picked;
        var j :| 0 <= j < |picked| && picked[j] == r;
        assert rest[if j < i then j else j - 1] == r;
      }
      PickedAll(rest, n - 1);
    }
  }

  // ---------------------------------------------------------------------
  // Polishing, mutating and re-scoring every particle

  /** A random mutation of one particle: `pos[p, task] = new_vm`. */
  datatype Mutation = Mutation(task: nat, vm: nat)

  predicate ValidMutations(mutations: seq<Option<Mutation>>, nTasks: nat, nVms: nat)
  {
    forall p :: 0 <= p < |mutations| && mutations[p].Some?
      ==> mutations[p].value.task < nTasks && mutations[p].value.vm < nVms
  }

  /** `np.random.randint(n)` from a uniform draw `u` in `[0, 1)`: an index
      below `n`, or `None` for the `ValueError` NumPy raises when `n` is not
      positive. */
  function RandInt(n: int, u: real): (r: Option<nat>)
    requires 0.0 <= u < 1.0
    ensures r.Some? <==> n > 0
    ensures r.Some? ==> r.value < n
  {
    if n <= 0 then None
    else
      var x := u * n as real;
      MultiplyMonotone(0.0, u, n as real);
      PositiveProduct(1.0 - u, n as real);
      assert n as real - x == (1.0 - u) * n as real;
      Some(x.Floor as nat)
  }

  /** What lines 190-193 draw for one particle. */
  datatype Draw = NoMutation | Raised | Mutates(mutation: Mutation)

  /** Lines 190-193 as written: when the draw `fire` is below
      `MUTATION_RATE`, a task coordinate and a VM are drawn with `randint`,
      which raises `ValueError` (`Raised`) when there are no tasks. */
  function MutationAsWritten(nTasks: nat, nVms: nat, fire: real, uTask: real, uVm: real): (d: Draw)
    requires 0.0 <= uTask < 1.0 && 0.0 <= uVm < 1.0
    ensures d.NoMutation? <==> fire >= MutationRate
    ensures d.Raised? <==> fire < MutationRate && (nTasks == 0 || nVms == 0)
    ensures d.Mutates? ==> d.mutation.task < nTasks && d.mutation.vm < nVms
  {
    if fire >= MutationRate then NoMutation
    else
      match (RandInt(nTasks, uTask), RandInt(nVms, uVm))
      case (Some(task), Some(vm)) => Mutates(Mutation(task, vm))
      case _ => Raised
  }

  /** With no tasks, the first mutation drawn raises: for a two-VM fleet
      and the draws 0.01, 0.5, 0.5 the source stops with `ValueError`
      instead of returning the empty assignment. */
  lemma NoTasksMutationRaises()
    ensures MutationAsWritten(0, 2, 0.01, 0.5, 0.5) == Raised
  {
  }

  /** The mutation the model draws: as written wherever the source does not
      raise, and no mutation at all when there is no task to mutate. The
      result is always a valid input of the main loop. */
  function DrawMutation(nTasks: nat, nVms: nat, fire: real, uTask: real, uVm: real): (m: Option<Mutation>)
    requires 0.0 <= uTask < 1.0 && 0.0 <= uVm < 1.0
    ensures ValidMutations([m], nTasks, nVms)
    ensures m.Some? <==> fire < MutationRate && nTasks > 0 && nVms > 0
    ensures var d := MutationAsWritten(nTasks, nVms, fire, uTask, uVm);
            d.Mutates? ==> m == Some(d.mutation)
  {
    match MutationAsWritten(nTasks, nVms, fire, uTask, uVm)
    case Mutates(mutation) => Some(mutation)
    case _ => None
  }

  /** A swarm of `PopSize` particles, each with one coordinate per task. */
  predicate Swarm(pos: seq<seq<real>>, nTasks: nat)
  {
    |pos| == PopSize && forall p :: 0 <= p < |pos| ==> |pos[p]| == nTasks
  }

  predicate AllInBox(pos: seq<seq<real>>, nVms: int)
  {
    forall p :: 0 <= p < |pos| ==> InBox(pos[p], nVms)
  }

  /** Lines 184-187: a picked particle moves to the integer position of the
      local search's result for its decoded position, so that decoding it
      again gives exactly that result, which is no worse; any other
      particle keeps its position. */
  function Polished(x: seq<real>, isPicked: bool, tasks: seq<Task>, vms: seq<VM>,
                    fit: seq<int> -> real): (y: seq<real>)
    requires |x| == |tasks| && InBox(x, |vms|) && ValidFleet(vms) && |vms| >= 1
    ensures |y| == |x| && InBox(y, |vms|)
    ensures isPicked ==> MapToSolution(y, |vms|) == LocalSearch(MapToSolution(x, |vms|), tasks, vms, fit)
    ensures isPicked ==> fit(MapToSolution(y, |vms|)) <= fit(MapToSolution(x, |vms|))
    ensures !isPicked ==> y == x
  {
    if isPicked then
      var improved := LocalSearch(MapToSolution(x, |vms|), tasks, vms, fit);
      DecodeOfIntegerPosition(improved, |vms|);
      AsPosition(improved)
    else x
  }

  /** Lines 190-193: a drawn mutation puts coordinate `task` on VM `vm` and
      leaves every other coordinate as it was. */
  function Mutate(y: seq<real>, mutation: Option<Mutation>, nVms: int): (z: seq<real>)
    requires InBox(y, nVms)
    requires mutation.Some? ==> mutation.value.task < |y| && mutation.value.vm < nVms
    ensures |z| == |y| && InBox(z, nVms)
    ensures mutation.None? ==> z == y
    ensures mutation.Some? ==> (z[mutation.value.task] == mutation.value.vm as real
              && forall k :: 0 <= k < |y| && k != mutation.value.task ==> z[k] == y[k])
  {
    match mutation
    case None => y
    case Some(m) => y[m.task := m.vm as real]
  }

  /** Lines 184-193 for one particle: polished when picked, then mutated
      when a mutation is drawn for it. */
  function Updated(x: seq<real>, isPicked: bool, mutation: Option<Mutation>,
                   tasks: seq<Task>, vms: seq<VM>, fit: seq<int> -> real): (y: seq<real>)
    requires |x| == |tasks| && InBox(x, |vms|) && ValidFleet(vms) && |vms| >= 1
    requires mutation.Some? ==> mutation.value.task < |tasks| && mutation.value.vm < |vms|
    ensures |y| == |x| && InBox(y, |vms|)
  {
    Mutate(Polished(x, isPicked, tasks, vms, fit), mutation, |vms|)
  }

  /** Lines 182-193 for the whole swarm: every particle polished when
      picked, then mutated when a mutation is drawn for it. */
  function Improved(pos: seq<seq<real>>, picked: seq<nat>, mutations: seq<Option<Mutation>>,
                    tasks: seq<Task>, vms: seq<VM>, fit: seq<int> -> real): (next: seq<seq<real>>)
    requires Swarm(pos, |tasks|) && AllInBox(pos, |vms|) && ValidFleet(vms) && |vms| >= 1
    requires |mutations| == PopSize && ValidMutations(mutations, |tasks|, |vms|)
    ensures Swarm(next, |tasks|) && AllInBox(next, |vms|)
  {
    seq(PopSize, p requires 0 <= p < PopSize => Updated(pos[p], p in picked, mutations[p], tasks, vms, fit))
  }

  /** Particle `p` of the improved swarm is particle `p` of the moved one,
      polished when picked and then mutated. */
  lemma ImprovedAt(pos: seq<seq<real>>, picked: seq<nat>, mutations: seq<Option<Mutation>>,
                   tasks: seq<Task>, vms: seq<VM>, fit: seq<int> -> real, p: nat)
    requires Swarm(pos, |tasks|) && AllInBox(pos, |vms|) && ValidFleet(vms) && |vms| >= 1
    requires |mutations| == PopSize && ValidMutations(mutations, |tasks|, |vms|) && p < PopSize
    ensures Improved(pos, picked, mutations, tasks, vms, fit)[p]
         == Mutate(Polished(pos[p], p in picked, tasks, vms, fit), mutations[p], |vms|)
  {
  }

  /** Lines 184-195 for one particle: polishing, then mutation, then scoring
      the decoded position. A picked particle that is not mutated never
      scores worse than its decoded position did. */
  method ImproveOne(x: seq<real>, isPicked: bool, mutation: Option<Mutation>,
                    tasks: seq<Task>, vms: seq<VM>, fit: seq<int> -> real)
    returns (y: seq<real>, score: real)
    requires |x| == |tasks| && InBox(x, |vms|)
    requires ValidFleet(vms) && |vms| >= 1
    requires mutation.Some? ==> mutation.value.task < |tasks| && mutation.value.vm < |vms|
    ensures y == Updated(x, isPicked, mutation, tasks, vms, fit)
    ensures score == fit(MapToSolution(y, |vms|))
    ensures isPicked && mutation.None? ==> score <= fit(MapToSolution(x, |vms|))
  {
    y := x;
    if isPicked {
      var current := MapToSolution(x, |vms|);
      var improved := IntelligentLocalSearch(current, tasks, vms, fit);
      y := AsPosition(improved);
    }
    match mutation {
      case Some(m) => y := y[m.task := m.vm as real];
      case None =>
    }
    score := fit(MapToSolution(y, |vms|));
  }

  /** Lines 181-195: `ImproveOne` for every particle, the picked ones being
      those `BestRanked` chose; the new swarm is `Improved` and the new
      fitness its scores. */
  method ImproveParticles(pos: seq<seq<real>>, picked: seq<nat>, mutations: seq<Option<Mutation>>,
                          tasks: seq<Task>, vms: seq<VM>, fit: seq<int> -> real)
    returns (next: seq<seq<real>>, fitness: seq<real>)
    requires Swarm(pos, |tasks|) && AllInBox(pos, |vms|)
    requires ValidFleet(vms) && |vms| >= 1
    requires |mutations| == PopSize && ValidMutations(mutations, |tasks|, |vms|)
    ensures next == Improved(pos, picked, mutations, tasks, vms, fit)
    ensures fitness == Scores(next, |vms|, fit)
    ensures forall p :: 0 <= p < PopSize && p in picked && mutations[p].None?
              ==> fitness[p] <= fit(MapToSolution(pos[p], |vms|))
  {
    ghost var goal := Improved(pos, picked, mutations, tasks, vms, fit);
    next, fitness := [], [];
    for p := 0 to PopSize
      invariant next == goal[..p] && fitness == Scores(next, |vms|, fit)
    {
      var y, score := ImproveOne(pos[p], p in picked, mutations[p], tasks, vms, fit);
      assert goal[..p + 1] == goal[..p] + [y];
      ScoresAppend(next, y, |vms|, fit);
      next, fitness := next + [y], fitness + [score];
    }
    assert goal[..PopSize] == goal;
    forall p | 0 <= p < PopSize && p in picked && mutations[p].None?
      ensures fitness[p] <= fit(MapToSolution(pos[p], |vms|))
    {
      assert next[p] == Mutate(Polished(pos[p], true, tasks, vms, fit), None, |vms|);
    }
  }

  /** Scoring one more particle extends the scores by its fitness. */
  lemma ScoresAppend(pos: seq<seq<real>>, y: seq<real>, nVms: int, fit: seq<int> -> real)
    requires nVms >= 1
    ensures Scores(pos + [y], nVms, fit) == Scores(pos, nVms, fit) + [fit(MapToSolution(y, nVms))]
  {
    var a, b := Scores(pos + [y], nVms, fit), Scores(pos, nVms, fit) + [fit(MapToSolution(y, nVms))];
    forall p | 0 <= p < |a| ensures a[p] == b[p] {
      if p < |pos| {
        assert (pos + [y])[p] == pos[p];
      }
    }
  }

  // ---------------------------------------------------------------------
  // Elitism and anti-stagnation

  /** The global best: a position and the fitness recorded for it. */
  datatype Best = Best(val: real, pos: seq<real>)

  /** `gbest_val` is the fitness of the decoded `gbest_pos`. */
  predicate Witnessed(best: Best, nVms: int, fit: seq<int> -> real)
  {
    nVms >= 1 && best.val == fit(MapToSolution(best.pos, nVms))
  }

  /** Lines 197-207: the best particle of the iteration replaces the global
      best only when it is strictly better; otherwise the worst particle's
      position is overwritten with the global best one. Also reports whether
      the global best improved. */
  function Elitism(best: Best, pos: seq<seq<real>>, fitness: seq<real>)
    : (r: (Best, bool, seq<seq<real>>))
    requires |fitness| == |pos| > 0
    ensures r.0.val <= best.val && r.0.val <= MinOf(fitness)
    ensures r.1 <==> MinOf(fitness) < best.val
    ensures r.1 ==> r.0 == Best(MinOf(fitness), pos[ArgMin(fitness)]) && r.2 == pos
    ensures !r.1 ==> r.0 == best && r.2 == pos[ArgMax(fitness) := best.pos]
  {
    var c := ArgMin(fitness);
    if fitness[c] < best.val then (Best(fitness[c], pos[c]), true, pos)
    else (best, false, pos[ArgMax(fitness) := best.pos])
  }

  /** Elitism keeps the global best value the fitness of its own position,
      and keeps the swarm's shape and range. */
  lemma ElitismKeepsWitness(best: Best, pos: seq<seq<real>>, fitness: seq<real>,
                            nTasks: nat, nVms: int, fit: seq<int> -> real)
    requires Swarm(pos, nTasks) && |fitness| == |pos| && AllInBox(pos, nVms)
    requires |best.pos| == nTasks && InBox(best.pos, nVms) && Witnessed(best, nVms, fit)
    requires forall p :: 0 <= p < |pos| ==> fitness[p] == fit(MapToSolution(pos[p], nVms))
    ensures var r := Elitism(best, pos, fitness);
            Witnessed(r.0, nVms, fit) && |r.0.pos| == nTasks && InBox(r.0.pos, nVms)
            && Swarm(r.2, nTasks) && AllInBox(r.2, nVms)
  {
    var r := Elitism(best, pos, fitness);
    if r.1 {
      var c := ArgMin(fitness);
      assert r.0.val == fitness[c];
    } else {
      var w := ArgMax(fitness);
      assert forall p :: 0 <= p < |r.2| ==> r.2[p] == (if p == w then best.pos else pos[p]);
    }
  }

  /** After elitism every particle's recorded fitness is that of its
      position, except for the worst particle when the global best did not
      improve: it is moved to the global best position and keeps the
      fitness of its former one. */
  lemma ElitismRecords(best: Best, pos: seq<seq<real>>, fitness: seq<real>, nVms: int,
                       fit: seq<int> -> real)
    requires |fitness| == |pos| > 0 && nVms >= 1
    requires forall p :: 0 <= p < |pos| ==> fitness[p] == fit(MapToSolution(pos[p], nVms))
    ensures var r := Elitism(best, pos, fitness);
            (!r.1 ==> r.2[ArgMax(fitness)] == best.pos)
            && forall p :: 0 <= p < |pos| && (r.1 || p != ArgMax(fitness))
                 ==> fitness[p] == fit(MapToSolution(r.2[p], nVms))
  {
  }

  /** Lines 157-161: a stagnation counter at the limit resets the
      gravitational constant to `G0` and the counter to zero; otherwise the
      decayed constant of the iteration is used. */
  function AntiStagnation(counter: nat, decayedG: real): (r: (nat, real))
  {
    if counter >= StagnationLimit then (0, G0) else (counter, decayedG)
  }

  /** Lines 202 and 206: a strict improvement resets the counter, anything
      else increments it. */
  function CountStagnation(counter: nat, improved: bool): nat
  {
    if improved then 0 else counter + 1
  }

  /** The stagnation counter after a run of iterations whose
      improve-or-not outcomes are `improved`, starting from `counter`. */
  function CounterAfter(counter: nat, improved: seq<bool>): nat
    decreases |improved|
  {
    if improved == [] then counter
    else
      var n := |improved| - 1;
      CountStagnation(AntiStagnation(CounterAfter(counter, improved[..n]), 0.0).0, improved[n])
  }

  /** Whether each iteration of such a run began with a reset of G. */
  function Resets(counter: nat, improved: seq<bool>): (r: seq<bool>)
    ensures |r| == |improved|
    decreases |improved|
  {
    if improved == [] then []
    else
      var n := |improved| - 1;
      Resets(counter, improved[..n]) + [CounterAfter(counter, improved[..n]) >= StagnationLimit]
  }

  function NoImprovement(n: nat): (r: seq<bool>)
    ensures |r| == n && forall t :: 0 <= t < n ==> !r[t]
  {
    seq(n, t => false)
  }

  /** Without improvement, the counter climbs from 1 to the limit and
      starts over. */
  lemma {:induction false} CounterWithoutImprovement(n: nat)
    ensures CounterAfter(0, NoImprovement(n)) == if n == 0 then 0 else (n - 1) % StagnationLimit + 1
  {
    if n > 0 {
      assert NoImprovement(n)[..n - 1] == NoImprovement(n - 1);
      CounterWithoutImprovement(n - 1);
    }
  }

  /** A fitness trace that never improves resets G exactly once per
      `STAGNATION_LIMIT` iterations: at iterations 75, 150, 225, ... */
  lemma {:induction false} ResetsWithoutImprovement(n: nat)
    ensures forall t :: 0 <= t < n ==>
              Resets(0, NoImprovement(n))[t] == (t > 0 && t % StagnationLimit == 0)
  {
    if n > 0 {
      assert NoImprovement(n)[..n - 1] == NoImprovement(n - 1);
      ResetsWithoutImprovement(n - 1);
      CounterWithoutImprovement(n - 1);
    }
  }

  /** Every strict improvement clears the counter, whatever came before. */
  lemma ImprovementClearsCounter(counter: nat, improved: seq<bool>)
    requires |improved| > 0 && improved[|improved| - 1]
    ensures CounterAfter(counter, improved) == 0
  {
  }

  // ---------------------------------------------------------------------
  // The whole run

  /** `{task.id: vm_map[sol[i]] for i, task in enumerate(tasks)}`. */
  function BestAssignment(tasks: seq<Task>, vms: seq<VM>, sol: seq<int>): (a: map<int, string>)
    requires DistinctIds(tasks) && |sol| == |tasks| && InRange(sol, |vms|)
    ensures Total(a, tasks, vms)
    ensures forall i :: 0 <= i < |tasks| ==> a[tasks[i].id] == vms[sol[i]].name
  {
    Assignment(tasks, VmNames(sol, vms))
  }

  /** A sequence that never increases. */
  predicate NonIncreasing(s: seq<real>)
  {
    forall i, j :: 0 <= i < j < |s| ==> s[j] <= s[i]
  }

  /** One more iteration extends the reset flags and the counter by the
      rule of lines 155-161 and 200-206. */
  lemma ResetsExtend(outcomes: seq<bool>, improved: bool)
    ensures Resets(0, outcomes + [improved]) == Resets(0, outcomes) + [CounterAfter(0, outcomes) >= StagnationLimit]
    ensures CounterAfter(0, outcomes + [improved])
         == CountStagnation(AntiStagnation(CounterAfter(0, outcomes), 0.0).0, improved)
  {
    assert (outcomes + [improved])[..|outcomes|] == outcomes;
  }

  /** A history of global best values and the per-iteration outcomes: the
      values never increase, and an outcome is set exactly when its
      iteration lowered the value. */
  predicate Improvements(history: seq<real>, outcomes: seq<bool>)
  {
    |history| == |outcomes| + 1 && NonIncreasing(history)
    && forall s :: 0 <= s < |outcomes| ==> (outcomes[s] <==> history[s + 1] < history[s])
  }

  /** Recording one more iteration that did not raise the value. */
  lemma ImprovementsExtend(history: seq<real>, outcomes: seq<bool>, x: real, improved: bool)
    requires Improvements(history, outcomes)
    requires x <= history[|outcomes|] && (improved <==> x < history[|outcomes|])
    ensures Improvements(history + [x], outcomes + [improved])
    ensures (history + [x])[0] == history[0]
  {
    var h, o := history + [x], outcomes + [improved];
    forall i, j | 0 <= i < j < |h|
      ensures h[j] <= h[i]
    {
      if j < |history| {
        assert h[i] == history[i] && h[j] == history[j];
      } else {
        assert h[i] == history[i];
      }
    }
    forall s | 0 <= s < |o|
      ensures o[s] <==> h[s + 1] < h[s]
    {
      if s < |outcomes| {
        assert o[s] == outcomes[s] && h[s] == history[s] && h[s + 1] == history[s + 1];
      }
    }
  }

  /** The fitness of every particle's decoded position. */
  function Scores(pos: seq<seq<real>>, nVms: int, fit: seq<int> -> real): (f: seq<real>)
    requires nVms >= 1
    ensures |f| == |pos|
    ensures forall p :: 0 <= p < |pos| ==> f[p] == fit(MapToSolution(pos[p], nVms))
  {
    seq(|pos|, p requires 0 <= p < |pos| => fit(MapToSolution(pos[p], nVms)))
  }

  /** Lines 175-176 for the whole swarm. */
  function Velocities(vel: seq<seq<real>>, accel: seq<seq<real>>, nTasks: nat): (v: seq<seq<real>>)
    requires Swarm(vel, nTasks) && Swarm(accel, nTasks)
    ensures Swarm(v, nTasks)
    ensures forall p :: 0 <= p < PopSize ==> v[p] == NewVelocity(vel[p], accel[p])
  {
    seq(PopSize, p requires 0 <= p < PopSize => NewVelocity(vel[p], accel[p]))
  }

  /** Lines 177-178 for the whole swarm. */
  function Positions(pos: seq<seq<real>>, vel: seq<seq<real>>, nTasks: nat, nVms: int): (q: seq<seq<real>>)
    requires Swarm(pos, nTasks) && Swarm(vel, nTasks) && nVms >= 1
    ensures Swarm(q, nTasks) && AllInBox(q, nVms)
    ensures forall p :: 0 <= p < PopSize ==> q[p] == NewPosition(pos[p], vel[p], nVms)
  {
    seq(PopSize, p requires 0 <= p < PopSize => NewPosition(pos[p], vel[p], nVms))
  }

  /** The state the main loop carries from one iteration to the next. */
  datatype State = State(pos: seq<seq<real>>, vel: seq<seq<real>>, fitness: seq<real>,
                         gbest: Best, stagnation: nat)

  /** A swarm in the search box, one fitness per particle, and a global best
      that is the fitness of its own position and no worse than any
      particle's recorded fitness. */
  predicate Valid(s: State, nTasks: nat, nVms: int, fit: seq<int> -> real)
  {
    Swarm(s.pos, nTasks) && AllInBox(s.pos, nVms) && Swarm(s.vel, nTasks) && |s.fitness| == PopSize
    && |s.gbest.pos| == nTasks && InBox(s.gbest.pos, nVms) && Witnessed(s.gbest, nVms, fit)
    && s.gbest.val <= MinOf(s.fitness)
  }

  /** The global best of a valid state is no worse than any particle's
      recorded fitness. */
  lemma BestBelowAll(s: State, nTasks: nat, nVms: int, fit: seq<int> -> real)
    requires Valid(s, nTasks, nVms, fit)
    ensures forall p :: 0 <= p < |s.fitness| ==> s.gbest.val <= s.fitness[p]
  {
    assert forall p :: 0 <= p < |s.fitness| ==> MinOf(s.fitness) <= s.fitness[p];
  }

  /** Lines 140-151: the random initial swarm at rest, scored, with the
      first best particle as the global best. */
  function Initial(init: seq<seq<real>>, tasks: seq<Task>, vms: seq<VM>, fit: seq<int> -> real)
    : (s: State)
    requires Swarm(init, |tasks|) && AllInBox(init, |vms|) && |vms| >= 1
    ensures Valid(s, |tasks|, |vms|, fit) && s.pos == init && s.stagnation == 0
    ensures s.fitness == Scores(init, |vms|, fit) && s.gbest.val == MinOf(s.fitness)
  {
    var fitness := Scores(init, |vms|, fit);
    var c := ArgMin(fitness);
    State(init, seq(PopSize, p => seq(|tasks|, k => 0.0)), fitness, Best(fitness[c], init[c]), 0)
  }

  /** One iteration of the main loop (lines 154-207) as a function of the
      state, the decayed gravitational constant of the iteration, the
      acceleration the force law gives every particle and the mutations
      drawn; it returns the new state, the constant used and whether the
      global best improved. The new state is valid and its global best no
      worse; `NextFacts` says the rest. */
  function Next(tasks: seq<Task>, vms: seq<VM>, fit: seq<int> -> real, s: State,
                decayedG: real, accel: seq<seq<real>>, mutations: seq<Option<Mutation>>)
    : (r: (State, real, bool))
    requires ValidFleet(vms) && |vms| >= 1 && Valid(s, |tasks|, |vms|, fit)
    requires Swarm(accel, |tasks|)
    requires |mutations| == PopSize && ValidMutations(mutations, |tasks|, |vms|)
    ensures Valid(r.0, |tasks|, |vms|, fit)
    ensures r.0.gbest.val <= s.gbest.val
  {
    var restart := AntiStagnation(s.stagnation, decayedG);
    var vel := Velocities(s.vel, accel, |tasks|);
    var moved := Positions(s.pos, vel, |tasks|, |vms|);
    var picked := Ranked(s.fitness, LocalSearchCandidates);
    var polished := Improved(moved, picked, mutations, tasks, vms, fit);
    var scores := Scores(polished, |vms|, fit);
    ElitismKeepsWitness(s.gbest, polished, scores, |tasks|, |vms|, fit);
    var e := Elitism(s.gbest, polished, scores);
    (State(e.2, vel, scores, e.0, CountStagnation(restart.0, e.1)), restart.1, e.1)
  }

  /** What an iteration does: the gravitational constant is reset at the
      stagnation limit, and the counter then cleared by an improvement or
      incremented; every velocity is the clamped inertial update. The
      global best improves strictly exactly when the iteration's best
      particle beats it, and then it is that particle; otherwise it stays,
      and the worst particle is set to its position, the recorded fitness
      being the one of the particle's former position. Every other
      particle's recorded fitness is that of its position. */
  lemma NextFacts(tasks: seq<Task>, vms: seq<VM>, fit: seq<int> -> real, s: State,
                  decayedG: real, accel: seq<seq<real>>, mutations: seq<Option<Mutation>>)
    requires ValidFleet(vms) && |vms| >= 1 && Valid(s, |tasks|, |vms|, fit)
    requires Swarm(accel, |tasks|)
    requires |mutations| == PopSize && ValidMutations(mutations, |tasks|, |vms|)
    ensures var r := Next(tasks, vms, fit, s, decayedG, accel, mutations);
            && r.1 == AntiStagnation(s.stagnation, decayedG).1
            && r.0.stagnation == CountStagnation(AntiStagnation(s.stagnation, decayedG).0, r.2)
            && (forall p :: 0 <= p < PopSize ==> r.0.vel[p] == NewVelocity(s.vel[p], accel[p]))
            && (r.2 <==> r.0.gbest.val < s.gbest.val)
            && (r.2 ==> r.0.gbest.val == MinOf(r.0.fitness))
            && (!r.2 ==> r.0.gbest == s.gbest && r.0.pos[ArgMax(r.0.fitness)] == s.gbest.pos)
            && forall p :: 0 <= p < PopSize && (r.2 || p != ArgMax(r.0.fitness))
                 ==> r.0.fitness[p] == fit(MapToSolution(r.0.pos[p], |vms|))
  {
    var vel := Velocities(s.vel, accel, |tasks|);
    var moved := Positions(s.pos, vel, |tasks|, |vms|);
    var polished := Improved(moved, Ranked(s.fitness, LocalSearchCandidates), mutations, tasks, vms, fit);
    var scores := Scores(polished, |vms|, fit);
    ElitismRecords(s.gbest, polished, scores, |vms|, fit);
  }

  /** One iteration of the main loop (lines 154-207): the same as `Next`. */
  method Iterate(tasks: seq<Task>, vms: seq<VM>, fit: seq<int> -> real,
                 pos: seq<seq<real>>, vel: seq<seq<real>>, fitness: seq<real>,
                 gbest: Best, stagnation: nat,
                 decayedG: real, accel: seq<seq<real>>, mutations: seq<Option<Mutation>>)
    returns (pos': seq<seq<real>>, vel': seq<seq<real>>, fitness': seq<real>,
             gbest': Best, stagnation': nat, g: real, improved: bool)
    requires ValidFleet(vms) && |vms| >= 1
    requires Valid(State(pos, vel, fitness, gbest, stagnation), |tasks|, |vms|, fit)
    requires Swarm(accel, |tasks|)
    requires |mutations| == PopSize && ValidMutations(mutations, |tasks|, |vms|)
    ensures (State(pos', vel', fitness', gbest', stagnation'), g, improved)
         == Next(tasks, vms, fit, State(pos, vel, fitness, gbest, stagnation), decayedG, accel, mutations)
  {
    // lines 155-161
    var counter: nat;
    counter, g := AntiStagnation(stagnation, decayedG).0, AntiStagnation(stagnation, decayedG).1;

    // lines 163-178: the force law is an input; velocity and position are clamped
    vel' := Velocities(vel, accel, |tasks|);
    var moved := Positions(pos, vel', |tasks|, |vms|);

    // lines 181-195
    var picked := BestRanked(fitness, LocalSearchCandidates);
    var scored;
    moved, scored := ImproveParticles(moved, picked, mutations, tasks, vms, fit);

    // lines 197-207
    var step := Elitism(gbest, moved, scored);
    gbest', improved, pos' := step.0, step.1, step.2;
    fitness' := scored;
    stagnation' := CountStagnation(counter, improved);
  }

  /** The random inputs of every iteration: an acceleration per particle
      and a drawn mutation (if any) per particle. */
  predicate Inputs(tasks: seq<Task>, vms: seq<VM>, decayedG: seq<real>,
                   accel: seq<seq<seq<real>>>, mutations: seq<seq<Option<Mutation>>>)
  {
    |accel| == |decayedG| && |mutations| == |decayedG|
    && (forall t :: 0 <= t < |accel| ==> Swarm(accel[t], |tasks|))
    && forall t :: 0 <= t < |mutations| ==>
         |mutations[t]| == PopSize && ValidMutations(mutations[t], |tasks|, |vms|)
  }

  /** The state after the first `k` iterations from `s`. */
  function After(tasks: seq<Task>, vms: seq<VM>, fit: seq<int> -> real, s: State,
                 decayedG: seq<real>, accel: seq<seq<seq<real>>>, mutations: seq<seq<Option<Mutation>>>,
                 k: nat): (r: State)
    requires ValidFleet(vms) && |vms| >= 1 && Valid(s, |tasks|, |vms|, fit)
    requires Inputs(tasks, vms, decayedG, accel, mutations) && k <= |decayedG|
    ensures Valid(r, |tasks|, |vms|, fit)
    decreases k
  {
    if k == 0 then s
    else
      var prev := After(tasks, vms, fit, s, decayedG, accel, mutations, k - 1);
      Next(tasks, vms, fit, prev, decayedG[k - 1], accel[k - 1], mutations[k - 1]).0
  }

  /** An iteration never makes the global best worse. */
  lemma AfterStep(tasks: seq<Task>, vms: seq<VM>, fit: seq<int> -> real, s: State,
                  decayedG: seq<real>, accel: seq<seq<seq<real>>>,
                  mutations: seq<seq<Option<Mutation>>>, prev: nat, k: nat)
    requires ValidFleet(vms) && |vms| >= 1 && Valid(s, |tasks|, |vms|, fit)
    requires Inputs(tasks, vms, decayedG, accel, mutations) && k == prev + 1 <= |decayedG|
    ensures After(tasks, vms, fit, s, decayedG, accel, mutations, k).gbest.val
         <= After(tasks, vms, fit, s, decayedG, accel, mutations, prev).gbest.val
  {
  }

  /** The global best after `n` iterations is no worse than the global best
      after any `k <= n` of them. */
  lemma {:induction false} AfterNoWorse(tasks: seq<Task>, vms: seq<VM>, fit: seq<int> -> real, s: State,
                     decayedG: seq<real>, accel: seq<seq<seq<real>>>,
                     mutations: seq<seq<Option<Mutation>>>, k: nat, n: nat)
    requires ValidFleet(vms) && |vms| >= 1 && Valid(s, |tasks|, |vms|, fit)
    requires Inputs(tasks, vms, decayedG, accel, mutations) && k <= n <= |decayedG|
    ensures After(tasks, vms, fit, s, decayedG, accel, mutations, n).gbest.val
         <= After(tasks, vms, fit, s, decayedG, accel, mutations, k).gbest.val
    decreases n
  {
    if k < n {
      var m: nat := n - 1;
      AfterNoWorse(tasks, vms, fit, s, decayedG, accel, mutations, k, m);
      AfterStep(tasks, vms, fit, s, decayedG, accel, mutations, m, n);
      assert After(tasks, vms, fit, s, decayedG, accel, mutations, n).gbest.val
          <= After(tasks, vms, fit, s, decayedG, accel, mutations, m).gbest.val;
      assert After(tasks, vms, fit, s, decayedG, accel, mutations, m).gbest.val
          <= After(tasks, vms, fit, s, decayedG, accel, mutations, k).gbest.val;
    } else {
      assert k == n;
    }
  }

  /** The global best after `n` iterations is no worse than any fitness
      recorded after any `k <= n` of them. */
  lemma FinalBelowAll(tasks: seq<Task>, vms: seq<VM>, fit: seq<int> -> real, s: State,
                      decayedG: seq<real>, accel: seq<seq<seq<real>>>,
                      mutations: seq<seq<Option<Mutation>>>, n: nat)
    requires ValidFleet(vms) && |vms| >= 1 && Valid(s, |tasks|, |vms|, fit)
    requires Inputs(tasks, vms, decayedG, accel, mutations) && n <= |decayedG|
    ensures forall k, p :: 0 <= k <= n && 0 <= p < PopSize ==>
              After(tasks, vms, fit, s, decayedG, accel, mutations, n).gbest.val
              <= After(tasks, vms, fit, s, decayedG, accel, mutations, k).fitness[p]
  {
    forall k | 0 <= k <= n
      ensures forall p :: 0 <= p < PopSize ==>
                After(tasks, vms, fit, s, decayedG, accel, mutations, n).gbest.val
                <= After(tasks, vms, fit, s, decayedG, accel, mutations, k).fitness[p]
    {
      AfterNoWorse(tasks, vms, fit, s, decayedG, accel, mutations, k, n);
      BestBelowAll(After(tasks, vms, fit, s, decayedG, accel, mutations, k), |tasks|, |vms|, fit);
    }
  }

  /** One pass of the main loop keeps the loop's records in step with
      `After`: the state is the next one, the value recorded does not rise,
      the outcome says whether it fell, and the counter and the resets are
      those `CounterAfter` and `Resets` give for the outcomes so far. */
  lemma MainStep(tasks: seq<Task>, vms: seq<VM>, fit: seq<int> -> real, start: State,
                 decayedG: seq<real>, accel: seq<seq<seq<real>>>, mutations: seq<seq<Option<Mutation>>>,
                 t: nat, prev: State, next: State, g: real, improved: bool,
                 history: seq<real>, outcomes: seq<bool>)
    requires ValidFleet(vms) && |vms| >= 1 && Valid(start, |tasks|, |vms|, fit)
    requires Inputs(tasks, vms, decayedG, accel, mutations) && t < |decayedG|
    requires prev == After(tasks, vms, fit, start, decayedG, accel, mutations, t)
    requires (next, g, improved) == Next(tasks, vms, fit, prev, decayedG[t], accel[t], mutations[t])
    requires |outcomes| == t && Improvements(history, outcomes) && prev.gbest.val == history[t]
    requires prev.stagnation == CounterAfter(0, outcomes)
    ensures next == After(tasks, vms, fit, start, decayedG, accel, mutations, t + 1)
    ensures Improvements(history + [next.gbest.val], outcomes + [improved])
    ensures (history + [next.gbest.val])[0] == history[0]
    ensures next.stagnation == CounterAfter(0, outcomes + [improved])
    ensures Resets(0, outcomes + [improved]) == Resets(0, outcomes) + [prev.stagnation >= StagnationLimit]
  {
    NextFacts(tasks, vms, fit, prev, decayedG[t], accel[t], mutations[t]);
    ResetsExtend(outcomes, improved);
    ImprovementsExtend(history, outcomes, next.gbest.val, improved);
  }

  /** The main loop (lines 154-207), one iteration per entry of `decayedG`,
      from a valid swarm with a cleared stagnation counter: the state it
      ends in is the one `After` gives. `history` is the global best value
      before the first iteration and after each one, `outcomes` whether
      each iteration improved it, and `gReset` whether each iteration
      reset the gravitational constant. */
  method MainLoop(tasks: seq<Task>, vms: seq<VM>, fit: seq<int> -> real,
                  pos0: seq<seq<real>>, vel0: seq<seq<real>>, fitness0: seq<real>, gbest0: Best,
                  decayedG: seq<real>, accel: seq<seq<seq<real>>>, mutations: seq<seq<Option<Mutation>>>)
    returns (pos: seq<seq<real>>, vel: seq<seq<real>>, fitness: seq<real>, gbest: Best, stagnation: nat,
             ghost history: seq<real>, ghost outcomes: seq<bool>, ghost gReset: seq<bool>)
    requires ValidFleet(vms) && |vms| >= 1
    requires Valid(State(pos0, vel0, fitness0, gbest0, 0), |tasks|, |vms|, fit)
    requires Inputs(tasks, vms, decayedG, accel, mutations)
    ensures State(pos, vel, fitness, gbest, stagnation)
         == After(tasks, vms, fit, State(pos0, vel0, fitness0, gbest0, 0), decayedG, accel, mutations, |decayedG|)
    ensures |outcomes| == |decayedG| && Improvements(history, outcomes)
    ensures history[0] == gbest0.val && history[|decayedG|] == gbest.val
    ensures gReset == Resets(0, outcomes)
  {
    ghost var start := State(pos0, vel0, fitness0, gbest0, 0);
    pos, vel, fitness, gbest, stagnation := pos0, vel0, fitness0, gbest0, 0;
    history, outcomes, gReset := [gbest.val], [], [];

    for t := 0 to |decayedG|
      invariant State(pos, vel, fitness, gbest, stagnation)
             == After(tasks, vms, fit, start, decayedG, accel, mutations, t)
      invariant |outcomes| == t && Improvements(history, outcomes)
      invariant history[0] == gbest0.val && gbest.val == history[t]
      invariant gReset == Resets(0, outcomes) && stagnation == CounterAfter(0, outcomes)
    {
      var g, improved;
      gReset := gReset + [stagnation >= StagnationLimit];
      ghost var prev := State(pos, vel, fitness, gbest, stagnation);
      pos, vel, fitness, gbest, stagnation, g, improved :=
        Iterate(tasks, vms, fit, pos, vel, fitness, gbest, stagnation, decayedG[t], accel[t], mutations[t]);
      MainStep(tasks, vms, fit, start, decayedG, accel, mutations, t, prev,
               State(pos, vel, fitness, gbest, stagnation), g, improved, history, outcomes);
      outcomes, history := outcomes + [improved], history + [gbest.val];
    }
  }

  /** `cloudy_gsa_scheduler`. `init` is the random initial swarm, and for
      each iteration `decayedG` is `G0 * exp(-ALPHA * t / iterations)`,
      `accel` the acceleration the force law gives each particle, and
      `mutations` the random mutation (if any) drawn for each particle.

      The returned assignment is total and decodes `best`, the global best
      position after all iterations, whose fitness is the reported one and
      is at most every fitness recorded in any iteration. `history` is the
      global best value before the first iteration and after each one: it
      never increases, and `outcomes` records which iterations improved it
      strictly; the anti-stagnation resets happen exactly where `Resets`
      places them for those outcomes. */
  method Schedule(tasks: seq<Task>, vms: seq<VM>, iterations: nat, fit: seq<int> -> real,
                  init: seq<seq<real>>, decayedG: seq<real>,
                  accel: seq<seq<seq<real>>>, mutations: seq<seq<Option<Mutation>>>)
    returns (assignment: map<int, string>, best: seq<int>, bestFitness: real,
             ghost history: seq<real>, ghost outcomes: seq<bool>, ghost gReset: seq<bool>)
    requires DistinctIds(tasks) && ValidFleet(vms) && |vms| >= 1
    requires Swarm(init, |tasks|) && AllInBox(init, |vms|)
    requires |decayedG| == iterations && Inputs(tasks, vms, decayedG, accel, mutations)
    ensures var final := After(tasks, vms, fit, Initial(init, tasks, vms, fit), decayedG, accel, mutations, iterations);
            best == MapToSolution(final.gbest.pos, |vms|) && bestFitness == final.gbest.val
    ensures bestFitness == fit(best)
    ensures forall k, p :: 0 <= k <= iterations && 0 <= p < PopSize ==>
              bestFitness <= After(tasks, vms, fit, Initial(init, tasks, vms, fit), decayedG, accel, mutations, k).fitness[p]
    ensures Total(assignment, tasks, vms)
    ensures tasks == [] ==> assignment == map[]
    ensures |best| == |tasks| && InRange(best, |vms|)
    ensures forall i :: 0 <= i < |tasks| ==> assignment[tasks[i].id] == vms[best[i]].name
    ensures |history| == iterations + 1 && NonIncreasing(history)
    ensures history[0] == MinOf(Scores(init, |vms|, fit)) && history[iterations] == bestFitness
    ensures |outcomes| == iterations
    ensures forall t :: 0 <= t < iterations ==> (outcomes[t] <==> history[t + 1] < history[t])
    ensures gReset == Resets(0, outcomes)
  {
    var nVms := |vms|;
    var fitness := Scores(init, nVms, fit);
    var vel := seq(PopSize, p => seq(|tasks|, k => 0.0));
    var c := ArgMin(fitness);
    ghost var start := Initial(init, tasks, vms, fit);
    assert State(init, vel, fitness, Best(fitness[c], init[c]), 0) == start;
    var pos, stagnation, gbest;
    pos, vel, fitness, gbest, stagnation, history, outcomes, gReset :=
      MainLoop(tasks, vms, fit, init, vel, fitness, Best(fitness[c], init[c]), decayedG, accel, mutations);

    best := MapToSolution(gbest.pos, nVms);
    bestFitness := gbest.val;
    assignment := BestAssignment(tasks, vms, best);
    FinalBelowAll(tasks, vms, fit, start, decayedG, accel, mutations, iterations);
    if tasks == [] {
      NoTasksNoKeys(assignment, vms);
    }
  }

  /** A total assignment of no tasks is empty. */
  lemma NoTasksNoKeys(a: map<int, string>, vms: seq<VM>)
    requires Total(a, [], vms)
    ensures a == map[]
  {
    assert a.Keys == {};
  }

  // ---------------------------------------------------------------------
  // Tasks from the dataset reader

  /** Once a dataset line is skipped before a kept one, looking the k-th
      task up by id, as `_get_vm_loads` does, no longer gives the k-th task
      for some position k. */
  lemma SkippedLineMisleadsLookup(lines: seq<string>, parse: string -> Option<int>, skipped: nat, kept: nat)
    requires skipped < kept < |lines|
    requires !Scheduler.Keeps(parse(lines[skipped])) && Scheduler.Keeps(parse(lines[kept]))
    ensures var tasks := Scheduler.KeptTasks(lines, parse);
            DistinctIds(tasks)
            && exists k :: 0 <= k < |tasks| && TaskAtAsWritten(tasks, k) != Some(tasks[k])
  {
    var tasks := Scheduler.KeptTasks(lines, parse);
    Scheduler.KeptTasksIncreasing(lines, parse);
    Scheduler.SkippedLineShiftsIds(lines, parse, skipped, kept);
    var k :| 0 <= k < |tasks| && tasks[k].id != k;
    assert TaskAtAsWritten(tasks, k) != Some(tasks[k]);
  }

  /** The dataset with the lines "x" and "1": the first line does not parse
      and is skipped, so the one task has id 1, and the lookup of position 0
      by id finds nothing (Python raises `KeyError`), while the positional
      lookup the model uses finds that task. */
  lemma SkippedLineBreaksLookup(parse: string -> Option<int>)
    requires parse("x") == None && parse("1") == Some(1)
    ensures var tasks := Scheduler.KeptTasks(["x", "1"], parse);
            tasks == [Task(1, "task-1-1", 1, 10000)]
            && DistinctIds(tasks) && TaskAtAsWritten(tasks, 0) == None
  {
    var lines := ["x", "1"];
    assert lines[..1] == ["x"] && lines[..1][..0] == [];
    assert Scheduler.Decimal(1) == "1";
    assert Scheduler.KeptTasks(["x"], parse) == [] by {
      assert ["x"][..0] == [] && ["x"][0] == "x";
    }
    assert lines[1] == "1" && Scheduler.Keeps(parse(lines[1]));
    var tasks := Scheduler.KeptTasks(lines, parse);
    assert tasks == [Scheduler.MakeTask(1, 1)];
    assert Scheduler.TaskName(1, 1) == "task-1-1";
    assert Scheduler.GetTaskLoad(1) == 10000;
    assert Ids(tasks) == set i | 0 <= i < 1 :: tasks[i].id;
  }
}
