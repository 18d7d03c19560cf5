/** One server tick's directors in order, and what the agent budget then holds. */
module AgentRuntimeManager {
  import opened AgentKernel
  import opened PatrolDirector
  import opened PatrolSteps
  import opened WorldRules
  import opened SpawnerDirector
  import Spawners
  import SpawnerSteps

  /** How many agents each kind of director made this tick; of the world rules', how many
      entities. */
  datatype Made = Made(patrols: nat, worldRules: nat, gameRules: nat, spawners: nat)

  /** What one tick sees from outside the directors. */
  datatype Input = Input(standings: seq<Standing>, findings: seq<Finding>, missions: seq<nat>,
                         alerts: seq<Spawners.Signal>, valid: set<nat>)

  class AgentRuntimeManager {
    const ceiling: nat
    const kernel: Kernel
    const patrols: PatrolDirector
    const worldRules: WorldRuleDirector
    const spawners: SpawnerDirector

    constructor (ceiling: nat, kernel: Kernel, patrols: PatrolDirector, worldRules: WorldRuleDirector,
                 spawners: SpawnerDirector)
      ensures this.ceiling == ceiling && this.kernel == kernel
      ensures this.patrols == patrols && this.worldRules == worldRules && this.spawners == spawners
    {
      this.ceiling, this.kernel, this.patrols, this.worldRules, this.spawners := ceiling, kernel, patrols, worldRules,
        spawners;
    }

    ghost predicate Valid()
      reads this, kernel, patrols, worldRules, spawners
    {
      patrols.Valid() && worldRules.Valid() && spawners.Valid(kernel)
    }

    ghost predicate Admissible(input: Input)
      reads this, kernel, patrols
    {
      && |input.standings| == |patrols.squads|
      && |input.findings| == |patrols.definitions| && (forall f :: f in input.findings ==> ValidFinding(f))
      && Signalled(kernel.Now(), input.alerts)
    }

    /** How the patrols stood when their pass was over squads that were done. */
    ghost function Patrolling(standings: seq<Standing>): PatrolSteps.Stage
      requires |standings| == |patrols.squads|
      reads this, kernel, patrols
    {
      var remaining := Remaining(patrols.definitions, patrols.squads, standings);
      PatrolSteps.Stage(patrols.runtimes, remaining, patrols.spawnedGroups, SquadAgents(remaining), |kernel.agents|,
                        kernel.requests)
    }

    /** What the patrols remember. */
    ghost function Left(): Patrols
      reads this, patrols
    {
      Patrols(patrols.runtimes, patrols.squads, patrols.spawnedGroups)
    }

    /** How the spawners stand when so many agents are counted. */
    ghost function Spawning(live: nat): SpawnerSteps.Stage
      reads this, kernel, spawners
    {
      SpawnerSteps.Stage(kernel.alive, spawners.Memo(), spawners.history.log, live, kernel.requests)
    }

    lemma AlertsTrue(input: Input)
      requires Admissible(input)
      ensures Signalled(kernel.Now(), input.alerts)
    {
    }

    lemma SpawningIs(live: nat)
      ensures Spawning(live) == SpawnerSteps.Stage(kernel.alive, spawners.Memo(), spawners.history.log, live,
                                                   kernel.requests)
    {
    }

    /** Mission waves: counted from the next tick's snapshot, never refused. */
    method SpawnMissions(missions: seq<nat>) returns (made: nat)
      requires kernel.Valid()
      modifies kernel
      ensures kernel.Valid() && Later(old(kernel.Now()), kernel.Now()) && old(kernel.alive) <= kernel.alive
      ensures |kernel.agents| == |old(kernel.agents)| + made
      ensures AskedFor(old(kernel.requests), kernel.requests, missions)
    {
      made := 0;
      ghost var world, agents, requests := kernel.Now(), |kernel.agents|, kernel.requests;
      LaterItself(kernel);
      AskedNothing(requests);
      assert missions[..0] == [];
      hide Later, AskedFor;
      for k := 0 to |missions|
        invariant kernel.Valid() && Later(world, kernel.Now()) && world.alive <= kernel.alive
        invariant |kernel.agents| == agents + made && AskedFor(requests, kernel.requests, missions[..k])
      {
        ghost var before, asked := kernel.Now(), kernel.requests;
        var id := kernel.Create(missions[k]);
        AskedOne(requests, asked, missions[..k], Request(missions[k], id));
        assert missions[..k + 1] == missions[..k] + [missions[k]];
        if id != 0 {
          CreatedLater(before, kernel.Now(), id, missions[k]);
          LaterStill(world, before, kernel.Now());
          made := made + 1;
        }
      }
      assert missions[..|missions|] == missions;
    }

    /** Between two ticks agents die and others appear, and the directors' memory stays true. */
    method Elapse(dead: set<nat>, born: seq<nat>, props: seq<nat>)
      requires Valid()
      modifies kernel
      ensures Valid() && Later(old(kernel.Now()), kernel.Now())
    {
      hide Spawners.Sound, Later, Spawners.ValidRules, ValidDefinition;
      ghost var before := kernel.Now();
      kernel.Elapse(dead, born, props);
      Spawners.LaterKeeps(spawners.rules, before, kernel.Now(), spawners.history, spawners.Memo());
    }

    /** Squads take only whole draws that fit; after one, the budget is exact again. */
    method TickPatrols(input: Input, budget: AgentBudget) returns (made: nat, ghost stages: seq<PatrolSteps.Stage>)
      requires Valid() && Admissible(input) && budget.ceiling == ceiling && budget.live == |kernel.agents|
      modifies kernel, patrols, budget
      ensures Valid() && Later(old(kernel.Now()), kernel.Now()) && old(kernel.alive) <= kernel.alive
      ensures |kernel.agents| == |old(kernel.agents)| + made == budget.live
      ensures ceiling != 0 && made > 0 ==> |kernel.agents| <= ceiling
      ensures PatrolsTo(patrols.definitions, patrols.maxLive, ceiling, patrols.randomness, input.findings, stages,
                        |patrols.definitions|)
      ensures |stages| == |patrols.definitions| + 1 && stages[0] == old(Patrolling(input.standings))
      ensures stages[|patrols.definitions|].requests == kernel.requests
      ensures LeftAt(stages[|patrols.definitions|]) == Left()
    {
      hide Spawners.Sound, Later, Spawners.ValidRules, CapsKept, ValidDefinition, SquadAgents, Remaining, PatrolTurn;
      ghost var before := kernel.Now();
      var agents, groups := |kernel.agents|, patrols.spawnedGroups;
      stages := patrols.Tick(kernel, input.standings, input.findings, budget);
      Spawners.LaterKeeps(spawners.rules, before, kernel.Now(), spawners.history, spawners.Memo());
      if patrols.spawnedGroups != groups {
        budget.live := |kernel.agents|;
      }
      made := |kernel.agents| - agents;
    }

    /** World rules are counted, agents or not, and never refused. */
    method TickWorldRules(budget: AgentBudget) returns (made: nat, ghost stages: seq<WorldRules.Stage>)
      requires Valid() && budget.live == |kernel.agents|
      modifies kernel, worldRules, budget
      ensures Valid() && Later(old(kernel.Now()), kernel.Now()) && old(kernel.alive) <= kernel.alive
      ensures |old(kernel.agents)| <= |kernel.agents| <= |old(kernel.agents)| + made == budget.live
      ensures made > 0 ==> budget.live <= MaxTarget(worldRules.rules)
      ensures RulesRun(worldRules.rules, stages, |worldRules.rules|)
      ensures |stages| == |worldRules.rules| + 1
      ensures stages[0] == WorldRules.Stage(old(worldRules.waits), |old(kernel.agents)|, old(kernel.requests))
      ensures stages[|worldRules.rules|] == WorldRules.Stage(worldRules.waits, budget.live, kernel.requests)
    {
      hide Spawners.Sound, Later, Spawners.ValidRules, ValidDefinition, RuleStep;
      ghost var before := kernel.Now();
      var spawned := worldRules.spawnedAgents;
      stages := worldRules.Tick(kernel, budget.live);
      Spawners.LaterKeeps(spawners.rules, before, kernel.Now(), spawners.history, spawners.Memo());
      made := worldRules.spawnedAgents - spawned;
      budget.Spend(made);
    }

    method TickSpawners(ghost start: World, input: Input, budget: AgentBudget)
        returns (made: nat, ghost course: SpawnerSteps.Course)
      requires Valid() && Later(start, kernel.Now()) && budget.ceiling == ceiling
      requires Signalled(start, input.alerts)
      modifies kernel, spawners, budget
      ensures Valid() && Later(old(kernel.Now()), kernel.Now()) && old(kernel.alive) <= kernel.alive
      ensures |kernel.agents| == |old(kernel.agents)| + made && budget.live == old(budget.live) + made
      ensures ceiling != 0 && made > 0 ==> budget.live <= ceiling
      ensures spawners.history.now == old(spawners.history.now) + if spawners.rules.carriers == [] then 0 else 1
      ensures RanLast(input, old(kernel.Now()), spawners.history.now, old(Spawning(budget.live)), course,
                      Spawning(budget.live))
    {
      AllSignalled(start, kernel.Now(), input.alerts);
      hide Spawners.Sound, Later, Spawners.ValidRules, ValidDefinition, Signalled, SpawnerSteps.Ticked;
      var agents := |kernel.agents|;
      course := spawners.Tick(kernel, input.alerts, input.valid, budget);
      made := |kernel.agents| - agents;
    }

    /** Missions leave the spawners' memory true. */
    method TickMissions(missions: seq<nat>) returns (made: nat)
      requires Valid()
      modifies kernel
      ensures Valid() && Later(old(kernel.Now()), kernel.Now()) && old(kernel.alive) <= kernel.alive
      ensures |kernel.agents| == |old(kernel.agents)| + made
      ensures AskedFor(old(kernel.requests), kernel.requests, missions)
    {
      hide Spawners.Sound, Later, Spawners.ValidRules, ValidDefinition, AskedFor;
      ghost var before := kernel.Now();
      made := SpawnMissions(missions);
      Spawners.LaterKeeps(spawners.rules, before, kernel.Now(), spawners.history, spawners.Memo());
    }

    /** The patrols ran, then the world rules from where those left the kernel and the budget, and then what the
        missions ask for was asked. */
    ghost predicate RanBefore(input: Input, inPatrols: nat, byRules: nat, first: PatrolSteps.Stage, waits: seq<nat>,
                              patrolStages: seq<PatrolSteps.Stage>, ruleStages: seq<WorldRules.Stage>, after: seq<nat>,
                              left: Patrols, requests: seq<Request>)
    {
      && |input.findings| == |patrols.definitions|
      && PatrolsTo(patrols.definitions, patrols.maxLive, ceiling, patrols.randomness, input.findings, patrolStages,
                   |patrols.definitions|)
      && RulesRun(worldRules.rules, ruleStages, |worldRules.rules|)
      && |patrolStages| == |patrols.definitions| + 1 && |ruleStages| == |worldRules.rules| + 1
      && var patrolled, ruled := patrolStages[|patrols.definitions|], ruleStages[|worldRules.rules|];
         && patrolStages[0] == first && LeftAt(patrolled) == left
         && ruleStages[0] == WorldRules.Stage(waits, first.live + inPatrols, patrolled.requests)
         && ruled.waits == after && ruled.live == first.live + inPatrols + byRules
         && AskedFor(ruled.requests, requests, input.missions)
    }

    /** And then the spawners. */
    ghost predicate RanLast(input: Input, world: World, now: nat, before: SpawnerSteps.Stage,
                            course: SpawnerSteps.Course, last: SpawnerSteps.Stage)
    {
      && Spawners.ValidRules(spawners.rules) && world.alive == before.alive
      && ((exists c :: c in spawners.rules.carriers && c.spawner.trigger == Spawners.Interval) ==>
            course.live == SpawnerSteps.LiveClocks(spawners.rules, world))
      && SpawnerSteps.Ticked(spawners.rules, spawners.randomness, input.valid, ceiling, now, input.alerts, before,
                             course, last)
    }

    /** Everything but the spawners; what the missions made is not counted yet. */
    method TickOthers(input: Input, budget: AgentBudget)
        returns (made: Made, ghost patrolStages: seq<PatrolSteps.Stage>, ghost ruleStages: seq<WorldRules.Stage>)
      requires Valid() && Admissible(input) && budget.ceiling == ceiling && budget.live == |kernel.agents|
      modifies kernel, patrols, worldRules, budget
      ensures Valid() && Later(old(kernel.Now()), kernel.Now()) && old(kernel.alive) <= kernel.alive
      ensures made.spawners == 0 && budget.live == |old(kernel.agents)| + made.patrols + made.worldRules
      ensures Bounded(ceiling, |old(kernel.agents)|, made, |kernel.agents|)
      ensures made.worldRules > 0 ==>
        |old(kernel.agents)| + made.patrols + made.worldRules <= MaxTarget(worldRules.rules)
      ensures RanBefore(input, made.patrols, made.worldRules, old(Patrolling(input.standings)), old(worldRules.waits),
                        patrolStages, ruleStages, worldRules.waits, Left(), kernel.requests)
    {
      hide Valid, Later, Signalled, PatrolsTo, RulesRun, AskedFor, Remaining, SquadAgents, MaxTarget;
      ghost var start := kernel.Now();
      var patrolled, turns := TickPatrols(input, budget);
      ghost var second := kernel.Now();
      var ruled, steps := TickWorldRules(budget);
      ghost var third := kernel.Now();
      LaterStill(start, second, third);
      var missions := TickMissions(input.missions);
      LaterStill(start, third, kernel.Now());
      made, patrolStages, ruleStages := Made(patrolled, ruled, missions, 0), turns, steps;
    }

    /** Patrols, then world rules, missions and spawners share one budget. Patrols and
        spawners together stay under what was left of the ceiling, so the population ends
        no higher than the ceiling, or where it already was, plus what the two kinds of
        rules made. Each director runs once, in that order, from where the one before it left
        the kernel and the budget. */
    method Tick(input: Input) returns (made: Made, ghost run: Run)
      requires Valid() && Admissible(input)
      modifies kernel, patrols, worldRules, spawners
      ensures Valid() && Later(old(kernel.Now()), kernel.Now())
      ensures Bounded(ceiling, |old(kernel.agents)|, made, |kernel.agents|)
      ensures made.worldRules > 0 ==> |old(kernel.agents)| + made.worldRules <= MaxTarget(worldRules.rules)
      ensures RanBefore(input, made.patrols, made.worldRules, old(Patrolling(input.standings)), old(worldRules.waits),
                        run.patrols, run.worldRules, worldRules.waits, Left(), run.before.requests)
      ensures run.before == SpawnerSteps.Stage(run.before.alive, old(spawners.Memo()), old(spawners.history.log),
        |old(kernel.agents)| + made.patrols + made.worldRules, run.before.requests)
      ensures old(kernel.alive) <= run.before.alive <= kernel.alive
      ensures Later(old(kernel.Now()), run.world) && Later(run.world, kernel.Now())
      ensures spawners.history.now == old(spawners.history.now) + if spawners.rules.carriers == [] then 0 else 1
      ensures RanLast(input, run.world, spawners.history.now, run.before, run.course,
                      Spawning(run.before.live + made.spawners))
    {
      hide *;
      ghost var start, agents := kernel.Now(), |kernel.agents|;
      AlertsTrue(input);
      var budget := new AgentBudget(ceiling, |kernel.agents|);
      var others, turns, steps := TickOthers(input, budget);
      ghost var middle, before := kernel.Now(), Spawning(budget.live);
      SpawningIs(budget.live);
      var called, course := TickSpawners(start, input, budget);
      LaterStill(start, middle, kernel.Now());
      made, run := others.(spawners := called), Run(turns, steps, middle, before, course);
      BoundedIs(ceiling, agents, others, called, |kernel.agents|);
    }
  }

  /** How a tick went: the patrols' turns, the world rules', how things stood when both kinds of rules were
      done, and the spawners' course. */
  datatype Run = Run(patrols: seq<PatrolSteps.Stage>, worldRules: seq<WorldRules.Stage>, world: World,
                     before: SpawnerSteps.Stage, course: SpawnerSteps.Course)

  datatype Patrols = Patrols(runtimes: seq<PatrolSteps.Runtime>, squads: seq<Squad>, groups: nat)

  function LeftAt(a: PatrolSteps.Stage): Patrols {
    Patrols(a.runtimes, a.squads, a.groups)
  }

  /** Nobody else comes or goes in a tick. What patrols and spawners make stays under what was left of the ceiling,
      so the population ends no higher than it, or than it already was, plus what the two kinds of rules made. */
  predicate Bounded(ceiling: nat, before: nat, made: Made, after: nat) {
    && before + made.patrols + made.gameRules + made.spawners <= after
    && after <= before + made.patrols + made.worldRules + made.gameRules + made.spawners
    && (ceiling != 0 && made.patrols + made.spawners > 0 ==> before + made.patrols + made.spawners <= ceiling)
    && (ceiling != 0 ==> after <= (if before >= ceiling then before else ceiling) + made.worldRules + made.gameRules)
  }

  lemma BoundedIs(ceiling: nat, before: nat, others: Made, called: nat, after: nat)
    requires called <= after && Bounded(ceiling, before, others, after - called) && others.spawners == 0
    requires ceiling != 0 && called > 0 ==> before + others.patrols + others.worldRules + called <= ceiling
    ensures Bounded(ceiling, before, others.(spawners := called), after)
  {
  }
}
