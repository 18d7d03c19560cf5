/** The spawner director: its clocks and its callers, ticked in place. */
module SpawnerDirector {
  import opened AgentKernel
  import opened Counters
  import opened Spawners
  import opened SpawnerSteps
  import opened Sums
  import opened Waves
  import opened Wrappers
  import Composition
  import Sorting

  /** How things were when a wave began. */
  datatype Start = Start(world: World, agents: nat, memory: Memory, history: History, requests: seq<Request>)

  /** Everything asked for since, in this order, recorded as it was answered. */
  ghost predicate Tracked(rules: Rules, start: Start, i: nat, alive: set<nat>, memory: Memory, requests: seq<Request>,
                          created: nat, asked: seq<nat>)
  {
    && i < |start.memory.instances| && AskedFor(start.requests, requests, asked)
    && var made := requests[|start.requests|..];
       && alive == start.world.alive + (set r | r in made && r.id != 0 :: r.id)
       && memory == Recorded(rules, start.memory, i, made) && created == Granted(made)
  }

  lemma TrackNothing(rules: Rules, start: Start, i: nat)
    requires i < |start.memory.instances|
    ensures Tracked(rules, start, i, start.world.alive, start.memory, start.requests, 0, [])
  {
  }

  lemma TrackOne(rules: Rules, start: Start, i: nat, alive: set<nat>, memory: Memory, requests: seq<Request>,
                 created: nat, asked: seq<nat>, r: Request)
    requires Tracked(rules, start, i, alive, memory, requests, created, asked)
    ensures |memory.instances| == |start.memory.instances|
    ensures Tracked(rules, start, i, if r.id == 0 then alive else alive + {r.id},
                    if r.id == 0 then memory else PutOut(rules, memory, i, r.id, r.template), requests + [r],
                    created + (if r.id == 0 then 0 else 1), asked + [r.template])
  {
    hide PutOut;
    AskedOne(start.requests, requests, asked, r);
    hide AskedFor;
    var made := requests[|start.requests|..];
    assert (requests + [r])[|start.requests|..] == made + [r];
    assert (made + [r])[..|made|] == made;
    assert forall q :: q in made + [r] <==> q in made || q == r;
  }

  class SpawnerDirector {
    const rules: Rules
    /** The random stream of each wave, by carrier and ordinal. */
    const randomness: (nat, nat) -> nat -> nat
    var instances: seq<Instance>
    var reinforceLive: seq<nat>
    var cannotCall: seq<nat>
    ghost var history: History

    ghost function Memo(): Memory
      reads this
    {
      Memory(instances, reinforceLive, cannotCall)
    }

    ghost predicate Valid(kernel: Kernel)
      reads this, kernel
    {
      ValidRules(rules) && kernel.Valid() && Sound(rules, kernel.Now(), history, Memo())
    }

    constructor (rules: Rules, randomness: (nat, nat) -> nat -> nat, kernel: Kernel)
      requires ValidRules(rules) && kernel.Valid()
      ensures Valid(kernel) && history == History(0, [], map[], {})
      ensures this.rules == rules && this.randomness == randomness
      ensures instances == [] && reinforceLive == [] && cannotCall == []
    {
      this.rules, this.randomness := rules, randomness;
      instances, reinforceLive, cannotCall := [], [], [];
      history := History(0, [], map[], {});
      new;
      StartSound(rules, kernel.Now());
    }

    ghost function Beginning(kernel: Kernel): Start
      reads this, kernel
    {
      Start(kernel.Now(), |kernel.agents|, Memo(), history, kernel.requests)
    }

    ghost function Standing(kernel: Kernel, budget: AgentBudget): Stage
      reads this, kernel, budget
    {
      Stage(kernel.alive, Memo(), history.log, budget.live, kernel.requests)
    }

    // ----- one wave ---------------------------------------------------------------------------

    method CreateUnit(kernel: Kernel, template: nat) returns (id: nat)
      requires Valid(kernel)
      modifies kernel
      ensures Valid(kernel) && Later(old(kernel.Now()), kernel.Now()) && kernel.alive >= old(kernel.alive)
      ensures |kernel.agents| == |old(kernel.agents)| + if id == 0 then 0 else 1
      ensures kernel.requests == old(kernel.requests) + [Request(template, id)]
      ensures kernel.alive == if id == 0 then old(kernel.alive) else old(kernel.alive) + {id}
      ensures id != 0 ==>
        Unheard(kernel.Now(), history, Memo(), id) && kernel.templates[id] == template && id !in old(kernel.templates)
    {
      hide Sound, ValidRules, Unheard;
      ghost var before := kernel.Now();
      id := kernel.Create(template);
      if id != 0 {
        LaterKeeps(rules, before, kernel.Now(), history, Memo());
        NewIsUnheard(rules, before, kernel.Now(), history, Memo(), id);
      }
    }

    method PutOne(kernel: Kernel, i: nat, template: nat) returns (id: nat)
      requires Valid(kernel) && i < |instances| && HasRoom(rules, Memo(), i)
      requires CallsForHelp(rules, instances[i].template) ==> instances[i].carrier !in history.madeBy
      modifies this`instances, this`reinforceLive, this`cannotCall, this`history, kernel
      ensures Valid(kernel) && Later(old(kernel.Now()), kernel.Now())
      ensures kernel.alive == if id == 0 then old(kernel.alive) else old(kernel.alive) + {id}
      ensures |kernel.agents| == |old(kernel.agents)| + if id == 0 then 0 else 1
      ensures kernel.requests == old(kernel.requests) + [Request(template, id)]
      ensures Memo() == if id == 0 then old(Memo()) else PutOut(rules, old(Memo()), i, id, template)
      ensures history.log == old(history.log) && history.now == old(history.now)
      ensures forall id :: id in history.madeBy && id in old(kernel.templates) ==> id in old(history.madeBy)
    {
      hide Sound, CallsForHelp, HasRoom, ValidRules, Unheard, Later;
      id := CreateUnit(kernel, template);
      if id == 0 {
        return;
      }
      PutOutKeeps(rules, kernel.Now(), history, Memo(), i, id);
      history := Made(rules, history, instances[i], id);
      var calls := CallsForHelp(rules, instances[i].template);
      instances := instances[i := instances[i].(spawned := instances[i].spawned + [id])];
      if calls {
        reinforceLive := reinforceLive + [id];
      }
      if CallsForHelp(rules, template) {
        cannotCall := cannotCall + [id];
      }
    }

    /** Where a wave of `count` stands after `created` units, from how things were at its start. */
    ghost predicate Emitting(kernel: Kernel, i: nat, spawner: Spawner, count: nat, start: Start, created: nat)
      reads this, kernel
    {
      && Valid(kernel) && Later(start.world, kernel.Now()) && start.world.alive <= kernel.alive
      && |kernel.agents| == start.agents + created
      && i < |instances| == |start.memory.instances| && SameBut(start.memory.instances[i], instances[i], created)
      && history.log == start.history.log && history.now == start.history.now
      && SpawnerOf(rules.carriers, instances[i].template) == Some(spawner)
      && (spawner.maxLive != 0 ==> |start.memory.instances[i].spawned| + count <= spawner.maxLive)
      && (spawner.trigger == OnAlert ==>
            && instances[i].carrier !in history.madeBy && instances[i].carrier in start.world.alive
            && |reinforceLive| == |start.memory.reinforceLive| + created
            && (rules.reinforceMax != 0 ==> |start.memory.reinforceLive| + count <= rules.reinforceMax))
    }

    ghost predicate Tracking(kernel: Kernel, i: nat, start: Start, created: nat, asked: seq<nat>)
      reads this, kernel
    {
      Tracked(rules, start, i, kernel.alive, Memo(), kernel.requests, created, asked)
    }

    method EmitOne(kernel: Kernel, i: nat, template: nat, ghost spawner: Spawner, ghost count: nat, ghost start: Start,
                   created: nat, ghost asked: seq<nat>) returns (next: nat)
      requires Emitting(kernel, i, spawner, count, start, created) && created < count
      requires Tracking(kernel, i, start, created, asked)
      modifies this`instances, this`reinforceLive, this`cannotCall, this`history, kernel
      ensures Emitting(kernel, i, spawner, count, start, next) && next <= created + 1
      ensures Tracking(kernel, i, start, next, asked + [template])
    {
      hide Sound, SpawnerOf, ValidRules, Tracked;
      RoomLeft(rules, Memo(), i, spawner);
      LaterIds(rules, kernel.Now(), history, Memo(), i);
      assert CallsForHelp(rules, instances[i].template) <==> spawner.trigger == OnAlert;
      hide HasRoom, CallsForHelp;
      ghost var before, memory, requests := kernel.Now(), Memo(), kernel.requests;
      var id := PutOne(kernel, i, template);
      TrackOne(rules, start, i, before.alive, memory, requests, created, asked, Request(template, id));
      LaterStill(start.world, before, kernel.Now());
      next := if id != 0 then created + 1 else created;
    }

    /** All of one entry. */
    method EmitEntry(kernel: Kernel, i: nat, template: nat, n: nat, ghost spawner: Spawner, ghost count: nat,
                     ghost start: Start, begun: nat, ghost asked: seq<nat>) returns (created: nat)
      requires Emitting(kernel, i, spawner, count, start, begun) && begun + n <= count
      requires Tracking(kernel, i, start, begun, asked)
      modifies this`instances, this`reinforceLive, this`cannotCall, this`history, kernel
      ensures Emitting(kernel, i, spawner, count, start, created) && created <= begun + n
      ensures Tracking(kernel, i, start, created, asked + Copies(template, n))
    {
      OneCopyMore(asked, template, 0);
      assert asked + Copies(template, 0) == asked;
      hide *;
      created := begun;
      for unit := 0 to n
        invariant Emitting(kernel, i, spawner, count, start, created) && created <= begun + unit
        invariant Tracking(kernel, i, start, created, asked + Copies(template, unit))
      {
        created := EmitOne(kernel, i, template, spawner, count, start, created, asked + Copies(template, unit));
        OneCopyMore(asked, template, unit);
      }
    }

    /** Entry after entry; a unit the kernel refuses is skipped. */
    method EmitEntries(kernel: Kernel, i: nat, spawner: Spawner, ghost count: nat, drawn: seq<nat>, ghost start: Start)
      returns (created: nat)
      requires Emitting(kernel, i, spawner, count, start, 0) && Tracking(kernel, i, start, 0, [])
      requires |drawn| == |spawner.composition| && Sum(drawn) == count
      modifies this`instances, this`reinforceLive, this`cannotCall, this`history, kernel
      ensures created <= count && Emitting(kernel, i, spawner, count, start, created)
      ensures Tracking(kernel, i, start, created, Units(spawner.composition, drawn))
    {
      assert Units(spawner.composition[..0], drawn[..0]) == [] && Sum(drawn[..0]) == 0;
      hide *;
      created := 0;
      for entry := 0 to |drawn|
        invariant Emitting(kernel, i, spawner, count, start, created) && created <= Sum(drawn[..entry])
        invariant Tracking(kernel, i, start, created, Units(spawner.composition[..entry], drawn[..entry]))
      {
        SumPrefix(drawn, entry);
        SumPrefixBound(drawn, entry + 1);
        UnitsNext(spawner.composition, drawn, entry);
        created := EmitEntry(kernel, i, spawner.composition[entry].templateId, drawn[entry], spawner, count, start,
                             created, Units(spawner.composition[..entry], drawn[..entry]));
      }
      assert drawn[..|drawn|] == drawn && spawner.composition[..|drawn|] == spawner.composition;
    }

    /** A whole wave around carrier `i`. */
    method EmitWave(kernel: Kernel, i: nat, spawner: Spawner, count: nat, random: Composition.RandomStream,
                    ghost start: Start) returns (created: nat)
      requires Emitting(kernel, i, spawner, count, start, 0) && Tracking(kernel, i, start, 0, [])
      requires start.history == history && spawner.countMin <= count <= spawner.countMax
      requires random.used == if spawner.countMin < spawner.countMax then 1 else 0
      modifies this`instances, this`reinforceLive, this`cannotCall, this`history, kernel, random
      ensures created <= count && i < |instances|
      ensures Emitted(kernel, i, spawner, count, start, created)
      ensures Composition.BandsOpen(spawner.composition)
      ensures Recalled(kernel, i, start, created, WaveOf(spawner.composition, spawner.countMin, spawner.countMax, count,
                                                         random.values))
    {
      assert ValidSpawner(spawner) by { SpawnerValid(rules, instances[i].template); }
      WaveIsExact(spawner, count, random.values, random.used);
      hide *;
      ghost var used := random.used;
      var drawn := Composition.DrawSpawnComposition(spawner.composition, count, random);
      WaveIs(spawner.composition, spawner.countMin, spawner.countMax, count, random.values, used, drawn);
      created := EmitEntries(kernel, i, spawner, count, drawn, start);
      CountOrdinal(kernel, i, spawner, count, start, created, Units(spawner.composition, drawn));
    }

    /** After the wave, and its ordinal. */
    ghost predicate Recalled(kernel: Kernel, i: nat, start: Start, created: nat, asked: seq<nat>)
      reads this, kernel
    {
      && i < |start.memory.instances| && AskedFor(start.requests, kernel.requests, asked)
      && var made := kernel.requests[|start.requests|..];
         && kernel.alive == start.world.alive + (set r | r in made && r.id != 0 :: r.id)
         && Memo() == Waved(rules, start.memory, i, made) && created == Granted(made)
    }

    method CountOrdinal(kernel: Kernel, i: nat, ghost spawner: Spawner, ghost count: nat, ghost start: Start,
                        created: nat, ghost asked: seq<nat>)
      requires Emitting(kernel, i, spawner, count, start, created) && Tracking(kernel, i, start, created, asked)
      modifies this`instances
      ensures i < |instances| && Emitted(kernel, i, spawner, count, start, created)
      ensures Recalled(kernel, i, start, created, asked)
    {
      hide Sound, SpawnerOf, ValidRules, Recorded, AskedFor;
      if created > 0 {
        OrdinalKeeps(kernel.Now(), i);
        instances := instances[i := instances[i].(ordinal := instances[i].ordinal + 1)];
      }
    }

    /** After the wave: nothing but the ordinal has moved since its last unit. */
    ghost predicate Emitted(kernel: Kernel, i: nat, spawner: Spawner, count: nat, start: Start, created: nat)
      reads this, kernel
      requires i < |instances|
    {
      i < |start.memory.instances| &&
      Emitting(kernel, i, spawner, count,
               start.(memory := start.memory.(instances := start.memory.instances[i :=
                 start.memory.instances[i].(ordinal := instances[i].ordinal)])), created)
    }

    lemma OrdinalKeeps(w: World, i: nat)
      requires Sound(rules, w, history, Memo()) && i < |instances|
      ensures Sound(rules, w, history,
        Memo().(instances := instances[i := instances[i].(ordinal := instances[i].ordinal + 1)]))
    {
      hide CallsForHelp, CallsSince, GaveUp, Gap, SpawnerOf;
      assert InstanceOk(rules, w, history, instances[i]);
      UpdateKeeps(rules, w, history, Memo(), i, instances[i].(ordinal := instances[i].ordinal + 1));
    }

    // ----- the clocks -----------------------------------------------------------------------------

    /** Anything new the query reports gets an instance, a whole interval from its first wave. */
    method Discover(kernel: Kernel) returns (live: set<nat>)
      requires Valid(kernel)
      modifies this`instances
      ensures Valid(kernel) && Discovered(rules, old(instances), instances, live)
      ensures live == LiveClocks(rules, kernel.Now())
    {
      hide Sound, SpawnerOf, Find, OnClock, Discovered;
      live := {};
      var seen := kernel.Query();
      NothingDiscovered(rules, instances);
      for k := 0 to |seen|
        invariant Valid(kernel) && Discovered(rules, old(instances), instances, live)
        invariant forall j :: 0 <= j < k && seen[j].valid && OnClock(rules, seen[j].template) ==> seen[j].netId in live
        invariant live <= LiveClocks(rules, kernel.Now())
      {
        var state := seen[k];
        assert state in seen;
        if state.valid && OnClock(rules, state.template) {
          OneDiscovered(rules, old(instances), instances, live, state.netId, state.template);
          live := live + {state.netId};
          if Find(instances, state.netId) == |instances| {
            var inst := Instance(state.netId, state.template, Gap(rules, state.template), 0, 0, false, []);
            AddKeeps(rules, kernel.Now(), history, Memo(), inst);
            instances := instances + [inst];
          }
        }
      }
      forall id | id in kernel.alive && OnClock(rules, kernel.templates[id]) ensures id in live {
        assert Lists(seen, id);
        var k :| 0 <= k < |seen| && seen[k].netId == id && seen[k].valid;
        assert seen[k] in seen;
      }
    }

    /** Counted every tick; what is gone stops counting against the ceiling. */
    method AdvanceClock(kernel: Kernel, i: nat)
      requires Valid(kernel) && i < |instances| && !CallsForHelp(rules, instances[i].template)
      modifies this`instances
      ensures Valid(kernel) && |instances| == |old(instances)| && i < |instances|
      ensures instances == old(instances)[i := old(instances[i]).(
        wait := Down(old(instances[i]).wait), spawned := Pruned(old(instances[i]).spawned, kernel.alive))]
    {
      hide Sound, CallsForHelp, ValidRules;
      ClockKeeps(rules, kernel.Now(), history, Memo(), i, Down(instances[i].wait));
      instances := instances[i :=
        instances[i].(wait := Down(instances[i].wait), spawned := Pruned(instances[i].spawned, kernel.alive))];
    }

    /** At most one wave of a legal size, from a clock that has run down on a carrier that is
        there; the clock is then wound up again. */
    method FireClock(kernel: Kernel, i: nat, valid: set<nat>, budget: AgentBudget)
      requires Valid(kernel) && i < |instances|
      modifies this`instances, this`reinforceLive, this`cannotCall, this`history, kernel, budget
      ensures Kept(kernel, budget, old(Beginning(kernel)), old(budget.live))
      ensures |instances| == |old(instances)|
      ensures history.log == old(history.log) && history.now == old(history.now)
      ensures ClockTurn(rules, randomness, valid, budget.ceiling, i, old(Standing(kernel, budget)),
                        Standing(kernel, budget))
    {
      hide Sound, SpawnerOf, ValidRules, ClockFires;
      LaterItself(kernel);
      var found := SpawnerOf(rules.carriers, instances[i].template);
      if found.None? || found.value.trigger != Interval {
        return;
      }
      AdvanceClock(kernel, i);
      hide Later;
      FireIfDue(kernel, i, found.value, valid, budget);
    }

    method FireIfDue(kernel: Kernel, i: nat, spawner: Spawner, valid: set<nat>, budget: AgentBudget)
      requires Valid(kernel) && i < |instances| && SpawnerOf(rules.carriers, instances[i].template) == Some(spawner)
      requires spawner.trigger == Interval
      modifies this`instances, this`reinforceLive, this`cannotCall, this`history, kernel, budget
      ensures Kept(kernel, budget, old(Beginning(kernel)), old(budget.live))
      ensures |instances| == |old(instances)|
      ensures history.log == old(history.log) && history.now == old(history.now)
      ensures Composition.BandsOpen(spawner.composition)
      ensures ClockFires(rules, randomness, valid, budget.ceiling, i, spawner, old(Standing(kernel, budget)),
                         Standing(kernel, budget))
    {
      hide Sound, SpawnerOf, ValidRules, ClockAsk, WaveFired;
      LaterItself(kernel);
      assert ValidSpawner(spawner) by { SpawnerValid(rules, instances[i].template); }
      if instances[i].wait > 0 || instances[i].carrier !in kernel.alive || instances[i].carrier !in valid {
        return;
      }
      hide Later;
      var random := new Composition.RandomStream(randomness(instances[i].carrier, instances[i].ordinal));
      var count := ClockSize(spawner, |instances[i].spawned|, budget, random);
      if count > 0 {
        FireWave(kernel, i, spawner, count, budget, random);
      }
    }

    /** One whole wave, spent and waited for. */
    method FireWave(kernel: Kernel, i: nat, spawner: Spawner, count: nat, budget: AgentBudget,
                    random: Composition.RandomStream)
      requires Valid(kernel) && i < |instances| && SpawnerOf(rules.carriers, instances[i].template) == Some(spawner)
      requires spawner.trigger == Interval
        && Affordable(spawner, count, |instances[i].spawned|, budget.ceiling, budget.live)
      requires random.used == if spawner.countMin < spawner.countMax then 1 else 0
      modifies this`instances, this`reinforceLive, this`cannotCall, this`history, kernel, budget, random
      ensures Kept(kernel, budget, old(Beginning(kernel)), old(budget.live))
      ensures |instances| == |old(instances)|
      ensures history.log == old(history.log) && history.now == old(history.now)
      ensures Composition.BandsOpen(spawner.composition)
      ensures WaveFired(rules, i, spawner, count, random.values, old(Standing(kernel, budget)),
                        Standing(kernel, budget))
    {
      hide Sound, SpawnerOf, ValidRules, Tracked, WaveOf;
      LaterItself(kernel);
      ghost var start := Beginning(kernel);
      TrackNothing(rules, start, i);
      var created := EmitWave(kernel, i, spawner, count, random, start);
      WavedNothing(rules, start.memory, i, kernel.requests[|start.requests|..]);
      hide Waved;
      if created > 0 {
        budget.Spend(created);
        WaitKeeps(rules, kernel.Now(), history, Memo(), i, spawner.intervalTicks);
        instances := instances[i := instances[i].(wait := spawner.intervalTicks)];
      }
    }

    /** What a pass has kept: the rules, the budget's ceiling, and a count of what it made. */
    ghost predicate Kept(kernel: Kernel, budget: AgentBudget, start: Start, live: nat)
      reads this, kernel, budget
    {
      && Valid(kernel) && Later(start.world, kernel.Now()) && start.world.alive <= kernel.alive
      && |kernel.agents| - start.agents == budget.live - live
      && |kernel.agents| >= start.agents
      && Within(budget.ceiling, live, budget.live)
    }

    /** Clocks are found, those gone are dropped, and the rest take their turns; without any among the
        rules nothing is looked for. */
    method TickIntervalCarriers(kernel: Kernel, valid: set<nat>, budget: AgentBudget)
      returns (ghost live: set<nat>, ghost found: seq<Instance>, ghost stages: seq<Stage>)
      requires Valid(kernel)
      modifies this`instances, this`reinforceLive, this`cannotCall, this`history, kernel, budget
      ensures Kept(kernel, budget, old(Beginning(kernel)), old(budget.live))
      ensures history.log == old(history.log) && history.now == old(history.now)
      ensures ClocksTicked(rules, randomness, valid, budget.ceiling, old(Standing(kernel, budget)), live, found, stages,
                           Standing(kernel, budget))
      ensures (exists c :: c in rules.carriers && c.spawner.trigger == Interval) ==>
        live == LiveClocks(rules, old(kernel.Now()))
    {
      hide Sound, ValidRules, SpawnerOf, ClocksRun, Discovered;
      LaterItself(kernel);
      live, found, stages := {}, instances, [Standing(kernel, budget)];
      if !exists c :: c in rules.carriers && c.spawner.trigger == Interval {
        return;
      }
      var reported := Discover(kernel);
      live, found := reported, instances;
      var all := rules;
      var keep := (inst: Instance) => !OnClock(all, inst.template) || inst.carrier in reported;
      InstancesTrue(rules, kernel.Now(), history, Memo());
      DropKeeps(rules, kernel.Now(), history, Memo(), keep);
      KeptIsRetired(rules, instances, reported, keep);
      instances := Spawners.Kept(instances, keep);
      stages := FireAll(kernel, valid, budget);
    }

    /** One clock after another. */
    method FireAll(kernel: Kernel, valid: set<nat>, budget: AgentBudget) returns (ghost stages: seq<Stage>)
      requires Valid(kernel)
      modifies this`instances, this`reinforceLive, this`cannotCall, this`history, kernel, budget
      ensures Kept(kernel, budget, old(Beginning(kernel)), old(budget.live))
      ensures history.log == old(history.log) && history.now == old(history.now)
      ensures ClocksRun(rules, randomness, valid, budget.ceiling, stages)
      ensures stages[0] == old(Standing(kernel, budget)) && stages[|stages| - 1] == Standing(kernel, budget)
    {
      LaterItself(kernel);
      stages := [Standing(kernel, budget)];
      assert Kept(kernel, budget, old(Beginning(kernel)), old(budget.live));
      assert |instances| == |stages[0].memory.instances|;
      hide *;
      for i := 0 to |instances|
        invariant Kept(kernel, budget, old(Beginning(kernel)), old(budget.live)) && ValidRules(rules)
        invariant |stages| == i + 1 && stages[0] == old(Standing(kernel, budget))
        invariant stages[i] == Standing(kernel, budget)
        invariant |instances| == |stages[0].memory.instances|
        invariant history.log == old(history.log) && history.now == old(history.now)
        invariant ClocksTo(rules, randomness, valid, budget.ceiling, stages, i)
      {
        stages := FireNext(kernel, i, valid, budget, old(Beginning(kernel)), old(budget.live), stages);
      }
    }

    method FireNext(kernel: Kernel, i: nat, valid: set<nat>, budget: AgentBudget, ghost start: Start, ghost live: nat,
                    ghost stages: seq<Stage>) returns (ghost next: seq<Stage>)
      requires Kept(kernel, budget, start, live) && i < |instances|
      requires |stages| == i + 1 && stages[i] == Standing(kernel, budget)
      requires ClocksTo(rules, randomness, valid, budget.ceiling, stages, i)
      modifies this`instances, this`reinforceLive, this`cannotCall, this`history, kernel, budget
      ensures Kept(kernel, budget, start, live) && |instances| == |old(instances)|
      ensures history.log == old(history.log) && history.now == old(history.now)
      ensures next == stages + [Standing(kernel, budget)]
      ensures ClocksTo(rules, randomness, valid, budget.ceiling, next, i + 1)
    {
      hide Later, ClockTurn, Sound, ValidRules, ClocksTo;
      ghost var before := kernel.Now();
      FireClock(kernel, i, valid, budget);
      ClocksOn(rules, randomness, valid, budget.ceiling, stages, i, Standing(kernel, budget));
      next := stages + [Standing(kernel, budget)];
      LaterStill(start.world, before, kernel.Now());
    }

    // ----- the callers ----------------------------------------------------------------------------

    /** What happened, and what the instance makes of it. */
    method Log(kernel: Kernel, i: nat, ghost e: Event, inst: Instance)
      requires Valid(kernel) && i < |instances| && e.id == instances[i].carrier
        && CallsForHelp(rules, instances[i].template)
      requires e.Called? ==> e.at == history.now && MayCall(rules, kernel.Now(), history, instances[i])
      requires inst == After(Memo(), i, e, Gap(rules, instances[i].template)).instances[i]
      modifies this`instances, this`history
      ensures Valid(kernel) && history == Logged(old(history), e) && instances == old(instances)[i := inst]
    {
      hide Sound, CallsForHelp, MayCall, ValidRules, Gap;
      EventKeeps(rules, kernel.Now(), history, Memo(), i, e);
      assert After(Memo(), i, e, Gap(rules, instances[i].template)).instances == instances[i := inst];
      instances := instances[i := inst];
      history := Logged(history, e);
    }

    /** Its first engagement gives a caller its instance, free to call at once. */
    method InstanceFor(kernel: Kernel, signal: Signal) returns (i: nat)
      requires Valid(kernel) && signal.netId in kernel.templates && kernel.templates[signal.netId] == signal.template
      modifies this`instances
      ensures Valid(kernel) && i < |instances| && instances[i].carrier == signal.netId
        && instances[i].template == signal.template
      ensures i == At(old(Memo()), signal)
      ensures Memo() == SpawnerSteps.Met(old(Memo()), signal.(started := false))
    {
      hide Sound, ValidRules;
      i := Find(instances, signal.netId);
      if i == |instances| {
        var inst := Instance(signal.netId, signal.template, 0, 0, 0, false, []);
        AddKeeps(rules, kernel.Now(), history, Memo(), inst);
        instances := instances + [inst];
      }
      TemplateKnown(rules, kernel.Now(), history, Memo(), i);
    }

    /** Whether the caller may call now, as far as its own rule goes. */
    method WantsToCall(kernel: Kernel, i: nat, spawner: Spawner, signal: Signal) returns (wants: bool)
      requires Valid(kernel) && i < |instances| && instances[i].carrier == signal.netId
      requires SpawnerOf(rules.carriers, instances[i].template) == Some(spawner) && spawner.trigger == OnAlert
      ensures wants && signal.netId in kernel.alive ==> MayCall(rules, kernel.Now(), history, instances[i])
      ensures wants <==> MayAsk(Memo(), i, spawner, signal)
    {
      hide Sound, SpawnerOf;
      if instances[i].refused || !signal.sees || instances[i].wait > 0 {
        return false;
      }
      if spawner.callsPerAlert != 0 && instances[i].calls >= spawner.callsPerAlert {
        return false;
      }
      NeverMarked(rules, kernel.Now(), history, Memo(), i);
      return signal.netId !in cannotCall;
    }

    method PruneOne(kernel: Kernel, i: nat)
      requires Valid(kernel) && i < |instances|
      modifies this`instances
      ensures Valid(kernel)
      ensures instances == old(instances)[i := old(instances[i]).(
        spawned := Pruned(old(instances[i]).spawned, kernel.alive))]
    {
      hide Sound, ValidRules;
      ghost var inst := instances[i];
      OwnOk(rules, kernel.Now(), history, Memo(), i);
      PruneInstance(rules, kernel.Now(), history, inst);
      UpdateKeeps(rules, kernel.Now(), history, Memo(), i, inst.(spawned := Pruned(inst.spawned, kernel.alive)));
      instances := instances[i := instances[i].(spawned := Pruned(instances[i].spawned, kernel.alive))];
    }

    /** One signal answered, or not. */
    method Answer(kernel: Kernel, signal: Signal, valid: set<nat>, budget: AgentBudget)
      requires Valid(kernel) && signal.netId in kernel.templates && kernel.templates[signal.netId] == signal.template
      modifies this`instances, this`reinforceLive, this`cannotCall, this`history, kernel, budget
      ensures Kept(kernel, budget, old(Beginning(kernel)), old(budget.live))
      ensures history.now == old(history.now)
      ensures SignalTurn(rules, randomness, valid, budget.ceiling, history.now, signal, old(Standing(kernel, budget)),
                         Standing(kernel, budget))
    {
      hide Sound, SpawnerOf, ValidRules, Find;
      LaterItself(kernel);
      var found := SpawnerOf(rules.carriers, signal.template);
      if found.None? || found.value.trigger != OnAlert {
        return;
      }
      var i := InstanceFor(kernel, signal);
      if signal.started {
        Log(kernel, i, Engaged(signal.netId), instances[i].(calls := 0, refused := false));
      }
      assert Memo() == SpawnerSteps.Met(old(Memo()), signal);
      var wants := WantsToCall(kernel, i, found.value, signal);
      if !wants {
        return;
      }
      hide MayCall, Later, MayAsk, CallTurn;
      PruneOne(kernel, i);
      StillMayCall(rules, kernel.Now(), history, instances[i]);
      Call(kernel, i, found.value, valid, budget);
    }

    /** A whole wave under the caller's ceiling, the shared one and the server's; refused
        for room, the caller gives up until its next engagement. */
    method Call(kernel: Kernel, i: nat, spawner: Spawner, valid: set<nat>, budget: AgentBudget)
      requires Valid(kernel) && i < |instances| && SpawnerOf(rules.carriers, instances[i].template) == Some(spawner)
      requires spawner.trigger == OnAlert
      requires instances[i].carrier in kernel.alive ==> MayCall(rules, kernel.Now(), history, instances[i])
      modifies this`instances, this`reinforceLive, this`cannotCall, this`history, kernel, budget
      ensures Kept(kernel, budget, old(Beginning(kernel)), old(budget.live))
      ensures history.now == old(history.now)
      ensures CallTurn(rules, randomness, valid, budget.ceiling, history.now, i, spawner, old(Standing(kernel, budget)),
                       Standing(kernel, budget))
    {
      hide Sound, SpawnerOf, ValidRules, MayCall, Later, CallAsk, AskedWave, Waved;
      LaterItself(kernel);
      assert ValidSpawner(spawner) by { SpawnerValid(rules, instances[i].template); }
      var random := new Composition.RandomStream(randomness(instances[i].carrier, instances[i].ordinal));
      var count := CallSize(spawner, |instances[i].spawned|, rules.reinforceMax, |reinforceLive|, budget, random);
      if count == 0 {
        Log(kernel, i, Refused(instances[i].carrier), instances[i].(refused := true));
        return;
      }
      if instances[i].carrier !in kernel.alive || instances[i].carrier !in valid {
        return;
      }
      CallWave(kernel, i, spawner, count, budget, random);
    }

    method CallWave(kernel: Kernel, i: nat, spawner: Spawner, count: nat, budget: AgentBudget,
                    random: Composition.RandomStream)
      requires Valid(kernel) && i < |instances| && SpawnerOf(rules.carriers, instances[i].template) == Some(spawner)
      requires spawner.trigger == OnAlert
        && Affordable(spawner, count, |instances[i].spawned|, budget.ceiling, budget.live)
      requires rules.reinforceMax != 0 ==> |reinforceLive| + count <= rules.reinforceMax
      requires instances[i].carrier in kernel.alive && MayCall(rules, kernel.Now(), history, instances[i])
      requires random.used == if spawner.countMin < spawner.countMax then 1 else 0
      modifies this`instances, this`reinforceLive, this`cannotCall, this`history, kernel, budget, random
      ensures Kept(kernel, budget, old(Beginning(kernel)), old(budget.live))
      ensures history.now == old(history.now)
      ensures Composition.BandsOpen(spawner.composition)
      ensures WaveCalled(rules, history.now, i, spawner, count, random.values, old(Standing(kernel, budget)),
                         Standing(kernel, budget))
    {
      hide Sound, SpawnerOf, ValidRules, Later, Tracked, WaveOf;
      LaterItself(kernel);
      ghost var start := Beginning(kernel);
      TrackNothing(rules, start, i);
      var created := EmitWave(kernel, i, spawner, count, random, start);
      WavedNothing(rules, start.memory, i, kernel.requests[|start.requests|..]);
      WavedSame(rules, start.memory, i, kernel.requests[|start.requests|..]);
      hide Waved;
      if created > 0 {
        budget.Spend(created);
        Log(kernel, i, Called(instances[i].carrier, history.now),
            instances[i].(calls := instances[i].calls + 1, wait := spawner.intervalTicks));
      }
    }

    method TickAlertCarriers(kernel: Kernel, alerts: seq<Signal>, valid: set<nat>, budget: AgentBudget)
      returns (ghost ordered: seq<Signal>, ghost stages: seq<Stage>)
      requires Valid(kernel) && Signalled(kernel.Now(), alerts)
      modifies this`instances, this`reinforceLive, this`cannotCall, this`history, kernel, budget
      ensures Kept(kernel, budget, old(Beginning(kernel)), old(budget.live))
      ensures history.now == old(history.now) + 1
      ensures SignalsTicked(rules, randomness, valid, budget.ceiling, history.now, old(Standing(kernel, budget)),
                            alerts, ordered, stages, Standing(kernel, budget))
    {
      LaterItself(kernel);
      hide Valid, Later, SignalsRun, Rested, Signalled, InNetIdOrder;
      Settle(kernel);
      var inOrder := Ordered(alerts);
      ordered := inOrder;
      stages := AnswerAll(kernel, inOrder, valid, budget);
    }

    /** Who is gone stops counting, gaps run down, and a dead caller's rule goes with it. */
    method Settle(kernel: Kernel)
      requires Valid(kernel)
      modifies this`instances, this`reinforceLive, this`cannotCall, this`history
      ensures Valid(kernel) && history == old(history).(now := old(history).now + 1)
      ensures Memo() == Rested(rules, old(Memo()), kernel.alive)
    {
      hide Sound, ValidRules, SpawnerOf;
      PruneKeeps(rules, kernel.Now(), history, Memo());
      reinforceLive, cannotCall := Pruned(reinforceLive, kernel.alive), Pruned(cannotCall, kernel.alive);
      CountdownKeeps(rules, kernel.Now(), history, Memo());
      CountDownGaps();
      history := history.(now := history.now + 1);
      var all, alive := rules, kernel.alive;
      var keep := (inst: Instance) => !CallsForHelp(all, inst.template) || inst.carrier in alive;
      DropKeeps(rules, kernel.Now(), history, Memo(), keep);
      KeptIsPresent(rules, instances, alive, keep);
      instances := Spawners.Kept(instances, keep);
    }

    method CountDownGaps()
      modifies this`instances
      ensures instances == Countdown(rules, old(instances))
    {
      hide CallsForHelp;
      for i := 0 to |instances|
        invariant |instances| == |old(instances)|
        invariant instances[..i] == Countdown(rules, old(instances))[..i] && instances[i..] == old(instances)[i..]
      {
        assert instances[i] == old(instances)[i];
        if CallsForHelp(rules, instances[i].template) {
          if instances[i].wait > 0 {
            instances := instances[i := instances[i].(wait := instances[i].wait - 1)];
          }
        }
      }
    }

    /** One signal after another. */
    method AnswerAll(kernel: Kernel, ordered: seq<Signal>, valid: set<nat>, budget: AgentBudget)
      returns (ghost stages: seq<Stage>)
      requires Valid(kernel) && Signalled(kernel.Now(), ordered)
      requires InNetIdOrder(ordered)
      modifies this`instances, this`reinforceLive, this`cannotCall, this`history, kernel, budget
      ensures Kept(kernel, budget, old(Beginning(kernel)), old(budget.live))
      ensures history.now == old(history.now)
      ensures SignalsRun(rules, randomness, valid, budget.ceiling, history.now, ordered, stages)
      ensures stages[0] == old(Standing(kernel, budget)) && stages[|ordered|] == Standing(kernel, budget)
    {
      LaterItself(kernel);
      stages := [Standing(kernel, budget)];
      assert Kept(kernel, budget, old(Beginning(kernel)), old(budget.live));
      ghost var start := Beginning(kernel);
      hide *;
      for k := 0 to |ordered|
        invariant Kept(kernel, budget, start, old(budget.live)) && ValidRules(rules)
        invariant history.now == old(history.now) && start == old(Beginning(kernel)) && Signalled(start.world, ordered)
        invariant |stages| == k + 1 && stages[0] == old(Standing(kernel, budget))
        invariant stages[k] == Standing(kernel, budget)
        invariant SignalsTo(rules, randomness, valid, budget.ceiling, history.now, ordered, stages, k)
      {
        stages := AnswerNext(kernel, ordered, k, valid, budget, start, old(budget.live), stages);
      }
    }

    method AnswerNext(kernel: Kernel, ordered: seq<Signal>, k: nat, valid: set<nat>, budget: AgentBudget,
                      ghost start: Start, ghost live: nat, ghost stages: seq<Stage>) returns (ghost next: seq<Stage>)
      requires Kept(kernel, budget, start, live) && k < |ordered| && Signalled(start.world, ordered)
      requires |stages| == k + 1 && stages[k] == Standing(kernel, budget)
      requires SignalsTo(rules, randomness, valid, budget.ceiling, history.now, ordered, stages, k)
      modifies this`instances, this`reinforceLive, this`cannotCall, this`history, kernel, budget
      ensures Kept(kernel, budget, start, live) && history.now == old(history.now)
      ensures next == stages + [Standing(kernel, budget)]
      ensures SignalsTo(rules, randomness, valid, budget.ceiling, history.now, ordered, next, k + 1)
    {
      hide Later, SignalTurn, Sound, ValidRules, SignalsTo, Signalled;
      ghost var before := kernel.Now();
      StillSignalled(start.world, before, ordered, k);
      Answer(kernel, ordered[k], valid, budget);
      SignalsOn(rules, randomness, valid, budget.ceiling, history.now, ordered, stages, k, Standing(kernel, budget));
      next := stages + [Standing(kernel, budget)];
      LaterStill(start.world, before, kernel.Now());
    }

    /** Clocks before callers; every clock that is there is found. */
    method Tick(kernel: Kernel, alerts: seq<Signal>, valid: set<nat>, budget: AgentBudget)
      returns (ghost t: Course)
      requires Valid(kernel) && Signalled(kernel.Now(), alerts)
      modifies this`instances, this`reinforceLive, this`cannotCall, this`history, kernel, budget
      ensures Kept(kernel, budget, old(Beginning(kernel)), old(budget.live))
      ensures Ticked(rules, randomness, valid, budget.ceiling, history.now, alerts, old(Standing(kernel, budget)), t,
                     Standing(kernel, budget))
      ensures history.now == old(history.now) + if rules.carriers == [] then 0 else 1
      ensures (exists c :: c in rules.carriers && c.spawner.trigger == Interval) ==>
        t.live == LiveClocks(rules, old(kernel.Now()))
    {
      LaterItself(kernel);
      t := Course({}, [], [], Standing(kernel, budget), [], []);
      if rules.carriers == [] {
        return;
      }
      hide Valid, Later, ClocksTicked, SignalsTicked, Signalled, Ticked;
      ghost var live, found, clocks := TickIntervalCarriers(kernel, valid, budget);
      ghost var before, between := kernel.Now(), Standing(kernel, budget);
      AllSignalled(old(kernel.Now()), before, alerts);
      ghost var ordered, calls := TickAlertCarriers(kernel, alerts, valid, budget);
      t := Course(live, found, clocks, between, ordered, calls);
      BothHalves(rules, randomness, valid, budget.ceiling, history.now, alerts, old(Standing(kernel, budget)), t,
                 Standing(kernel, budget));
      LaterStill(old(kernel.Now()), before, kernel.Now());
    }
  }

  lemma BothHalves(rules: Rules, randomness: (nat, nat) -> nat -> nat, valid: set<nat>, ceiling: nat, now: nat,
                   signals: seq<Signal>, a: Stage, t: Course, b: Stage)
    requires ValidRules(rules) && rules.carriers != []
    requires ClocksTicked(rules, randomness, valid, ceiling, a, t.live, t.found, t.clocks, t.between)
    requires SignalsTicked(rules, randomness, valid, ceiling, now, t.between, signals, t.ordered, t.calls, b)
    ensures Ticked(rules, randomness, valid, ceiling, now, signals, a, t, b)
  {
    hide ClocksTicked, SignalsTicked, ValidRules;
  }

  lemma {:induction false} KeptIsRetired(rules: Rules, instances: seq<Instance>, live: set<nat>, keep: Instance -> bool)
    requires forall inst :: keep(inst) <==> !OnClock(rules, inst.template) || inst.carrier in live
    ensures Spawners.Kept(instances, keep) == Retired(rules, instances, live)
  {
    if instances != [] {
      KeptIsRetired(rules, instances[..|instances| - 1], live, keep);
    }
  }

  lemma {:induction false} KeptIsPresent(rules: Rules, instances: seq<Instance>, alive: set<nat>,
                                         keep: Instance -> bool)
    requires forall inst :: keep(inst) <==> !CallsForHelp(rules, inst.template) || inst.carrier in alive
    ensures Spawners.Kept(instances, keep) == Present(rules, instances, alive)
  {
    if instances != [] {
      KeptIsPresent(rules, instances[..|instances| - 1], alive, keep);
    }
  }

  lemma NothingDiscovered(rules: Rules, instances: seq<Instance>)
    ensures Discovered(rules, instances, instances, {})
  {
  }

  lemma OneDiscovered(rules: Rules, before: seq<Instance>, after: seq<Instance>, live: set<nat>, id: nat, template: nat)
    requires Discovered(rules, before, after, live) && OnClock(rules, template)
    ensures Discovered(rules, before, if Find(after, id) < |after| then after
              else after + [Instance(id, template, Gap(rules, template), 0, 0, false, [])], live + {id})
  {
    hide OnClock, Gap, Find;
    var found := after + [Instance(id, template, Gap(rules, template), 0, 0, false, [])];
    forall other | Serving(after, other) ensures Serving(found, other) {
      var k :| 0 <= k < |after| && after[k].carrier == other;
      assert found[k].carrier == other;
    }
    assert found[|after|].carrier == id;
  }

  lemma InstancesTrue(rules: Rules, w: World, h: History, m: Memory)
    requires Sound(rules, w, h, m)
    ensures forall inst :: inst in m.instances ==>
      inst.carrier in w.templates && inst.template == w.templates[inst.carrier]
  {
    hide Capped, Counts, Remembers, Reinforced, NeverChains, LogOk, NoneDropped;
    forall inst | inst in m.instances
      ensures inst.carrier in w.templates && inst.template == w.templates[inst.carrier]
    {
      var i :| 0 <= i < |m.instances| && m.instances[i] == inst;
      assert InstanceOk(rules, w, h, m.instances[i]);
    }
  }

  ghost predicate Signalled(w: World, alerts: seq<Signal>) {
    forall s :: s in alerts ==> s.netId in w.templates && w.templates[s.netId] == s.template
  }

  lemma AllSignalled(w: World, v: World, alerts: seq<Signal>)
    requires Signalled(w, alerts) && Later(w, v)
    ensures Signalled(v, alerts)
  {
  }

  lemma StillSignalled(w: World, v: World, alerts: seq<Signal>, k: nat)
    requires Signalled(w, alerts) && Later(w, v) && k < |alerts|
    ensures alerts[k].netId in v.templates && v.templates[alerts[k].netId] == alerts[k].template
  {
    assert alerts[k] in alerts;
  }

  lemma SortedSame(alerts: seq<Signal>, ordered: seq<Signal>)
    requires multiset(ordered) == multiset(alerts)
    ensures forall w :: Signalled(w, alerts) ==> Signalled(w, ordered)
  {
    forall s | s in ordered ensures s in alerts {
      assert s in multiset(ordered);
    }
  }

  lemma TemplateKnown(rules: Rules, w: World, h: History, m: Memory, i: nat)
    requires Sound(rules, w, h, m) && i < |m.instances|
    ensures var inst := m.instances[i];
      inst.carrier in w.templates && w.templates[inst.carrier] == inst.template
  {
    hide CallsForHelp, CallsSince, GaveUp, Gap, SpawnerOf;
    assert InstanceOk(rules, w, h, m.instances[i]);
  }

  lemma OwnOk(rules: Rules, w: World, h: History, m: Memory, i: nat)
    requires Sound(rules, w, h, m) && i < |m.instances|
    ensures InstanceOk(rules, w, h, m.instances[i])
  {
    hide InstanceOk;
  }

  /** A living caller that is not marked was put out by nobody. */
  lemma NeverMarked(rules: Rules, w: World, h: History, m: Memory, i: nat)
    requires Sound(rules, w, h, m) && i < |m.instances| && CallsForHelp(rules, m.instances[i].template)
    ensures m.instances[i].carrier in w.alive && m.instances[i].carrier !in m.cannotCall
      ==> m.instances[i].carrier !in h.madeBy
  {
    hide CallsForHelp, CallsSince, GaveUp, Gap;
    TemplateKnown(rules, w, h, m, i);
  }

  lemma StillMayCall(rules: Rules, w: World, h: History, inst: Instance)
    ensures forall spawned :: MayCall(rules, w, h, inst.(spawned := spawned)) <==> MayCall(rules, w, h, inst)
  {
  }

  /** How many come when called: as drawn, or fewer for lack of room under any of three
      ceilings, or none if a legal wave does not fit. */
  method CallSize(s: Spawner, spawned: nat, reinforceMax: nat, reinforceLive: nat, budget: AgentBudget,
                  random: Composition.RandomStream) returns (count: nat)
    requires ValidSpawner(s) && random.used == 0
    modifies random
    ensures random.used == if s.countMin < s.countMax then 1 else 0
    ensures count == CallAsk(s, spawned, reinforceMax, reinforceLive, budget.ceiling, budget.live, random.values(0))
    ensures count == 0 ||
      (Affordable(s, count, spawned, budget.ceiling, budget.live) &&
       (reinforceMax != 0 ==> reinforceLive + count <= reinforceMax))
  {
    CountsInOrder(s);
    hide ValidSpawner;
    count := Composition.NextInRange(random, s.countMin, s.countMax);
    count := Least(count, RoomUnder(s.maxLive, spawned));
    count := Least(count, RoomUnder(reinforceMax, reinforceLive));
    count := Least(count, budget.Room());
    if count < s.countMin {
      return 0;
    }
  }

  /** A whole legal wave under a carrier's ceiling and the server's. */
  predicate Affordable(s: Spawner, count: nat, spawned: nat, ceiling: nat, live: nat) {
    && s.countMin <= count <= s.countMax
    && (s.maxLive != 0 ==> spawned + count <= s.maxLive)
    && (ceiling != 0 ==> live + count <= ceiling)
  }

  /** How many a clock puts out: as drawn, or fewer for lack of room, or none if a legal
      wave does not fit. */
  method ClockSize(s: Spawner, spawned: nat, budget: AgentBudget, random: Composition.RandomStream) returns (count: nat)
    requires ValidSpawner(s) && random.used == 0
    modifies random
    ensures random.used == if s.countMin < s.countMax then 1 else 0
    ensures count == ClockAsk(s, spawned, budget.ceiling, budget.live, random.values(0))
    ensures count == 0 || Affordable(s, count, spawned, budget.ceiling, budget.live)
  {
    CountsInOrder(s);
    hide ValidSpawner;
    count := Composition.NextInRange(random, s.countMin, s.countMax);
    if s.maxLive != 0 {
      count := Least(count, RoomUnder(s.maxLive, spawned));
      if count < s.countMin {
        return 0;
      }
    }
    count := Least(count, budget.Room());
    if count < s.countMin {
      return 0;
    }
  }

  lemma LaterItself(kernel: Kernel)
    requires kernel.Valid()
    ensures Later(kernel.Now(), kernel.Now())
  {
  }

  lemma CountsInOrder(s: Spawner)
    requires ValidSpawner(s)
    ensures 0 < s.countMin <= s.countMax && s.intervalTicks > 0
  {
  }

  lemma ClockKeeps(rules: Rules, w: World, h: History, m: Memory, i: nat, wait: nat)
    requires Sound(rules, w, h, m) && i < |m.instances| && !CallsForHelp(rules, m.instances[i].template)
    ensures var inst := m.instances[i];
      Sound(rules, w, h, m.(instances :=
        m.instances[i := inst.(wait := wait, spawned := Pruned(inst.spawned, w.alive))]))
  {
    hide CallsForHelp, CallsSince, GaveUp, Gap, SpawnerOf, Pruned;
    var inst := m.instances[i];
    assert InstanceOk(rules, w, h, inst);
    UpdateKeeps(rules, w, h, m, i, inst.(wait := wait, spawned := Pruned(inst.spawned, w.alive)));
  }

  /** Waiting longer is always allowed. */
  lemma WaitKeeps(rules: Rules, w: World, h: History, m: Memory, i: nat, wait: nat)
    requires Sound(rules, w, h, m) && i < |m.instances| && !CallsForHelp(rules, m.instances[i].template)
    ensures Sound(rules, w, h, m.(instances := m.instances[i := m.instances[i].(wait := wait)]))
  {
    hide CallsForHelp, CallsSince, GaveUp, Gap, SpawnerOf;
    assert InstanceOk(rules, w, h, m.instances[i]);
    UpdateKeeps(rules, w, h, m, i, m.instances[i].(wait := wait));
  }

  /** The same instance with `more` units out. */
  ghost predicate SameBut(a: Instance, b: Instance, more: nat) {
    a.(spawned := b.spawned) == b && |b.spawned| == |a.spawned| + more
  }

  lemma StartSound(rules: Rules, w: World)
    requires w.alive <= w.templates.Keys
    ensures Sound(rules, w, History(0, [], map[], {}), Memory([], [], []))
  {
    forall id | id in w.templates ensures CallsSince([], id) == 0 {
    }
  }

  lemma NewIsUnheard(rules: Rules, w: World, v: World, h: History, m: Memory, id: nat)
    requires Sound(rules, w, h, m) && id !in w.templates && id in v.templates
    ensures Unheard(v, h, m, id)
  {
    hide CallsForHelp, CallsSince, GaveUp, Gap, SpawnerOf;
    forall i | 0 <= i < |m.instances| ensures m.instances[i].carrier != id {
      assert InstanceOk(rules, w, h, m.instances[i]);
    }
  }

  lemma LaterIds(rules: Rules, w: World, h: History, m: Memory, i: nat)
    requires Sound(rules, w, h, m) && i < |m.instances|
    ensures m.instances[i].carrier in w.templates
  {
    hide CallsForHelp, CallsSince, GaveUp, Gap, SpawnerOf;
    assert InstanceOk(rules, w, h, m.instances[i]);
  }

  lemma SpawnerValid(rules: Rules, template: nat)
    requires ValidRules(rules) && SpawnerOf(rules.carriers, template).Some?
    ensures ValidSpawner(SpawnerOf(rules.carriers, template).value)
  {
  }

  /** A validated wave comes out exactly as big as it was asked to be. */
  lemma WaveIsExact(s: Spawner, count: nat, values: nat -> nat, start: nat)
    requires ValidSpawner(s) && s.countMin <= count <= s.countMax
    ensures Composition.BandsOpen(s.composition)
    ensures var drawn := Composition.Drawn(s.composition, count, values, start);
      Sum(drawn) == count && |drawn| == |s.composition|
  {
    Composition.TotalLaw(s.composition, count, values, start);
  }

  /** The signals sorted by net id. */
  function Ordered(alerts: seq<Signal>): (ordered: seq<Signal>)
    ensures multiset(ordered) == multiset(alerts) && InNetIdOrder(ordered)
    ensures forall w :: Signalled(w, alerts) ==> Signalled(w, ordered)
  {
    SortedInOrder(alerts);
    var ordered := Sorting.StableSort(ById, alerts);
    SortedSame(alerts, ordered);
    ordered
  }

  lemma SortedInOrder(alerts: seq<Signal>)
    ensures InNetIdOrder(Sorting.StableSort(ById, alerts))
  {
    var tie := (a: Signal, b: Signal) => true;
    Sorting.SortOrders(ById, tie, alerts);
    var ordered := Sorting.StableSort(ById, alerts);
    forall i, j | 0 <= i < j < |ordered| ensures ordered[i].netId <= ordered[j].netId {
      assert Sorting.Before(ById, tie, ordered[i], ordered[j]);
    }
  }

  predicate ById(a: Signal, b: Signal) {
    a.netId < b.netId
  }

  /** The ordinal and the wait are not among what a wave records. */
  lemma WavedSame(rules: Rules, m: Memory, i: nat, made: seq<Request>)
    requires i < |m.instances|
    ensures var r := Waved(rules, m, i, made).instances[i];
      r.carrier == m.instances[i].carrier && r.calls == m.instances[i].calls && r.wait == m.instances[i].wait
  {
    RecordedIs(rules, m, i, made);
  }

  lemma WavedNothing(rules: Rules, m: Memory, i: nat, made: seq<Request>)
    requires i < |m.instances|
    ensures Granted(made) == 0 ==> Waved(rules, m, i, made) == m
  {
    if Granted(made) == 0 {
      RecordedNothing(rules, m, i, made);
    }
  }

  lemma {:induction false} RecordedNothing(rules: Rules, m: Memory, i: nat, made: seq<Request>)
    requires i < |m.instances| && Granted(made) == 0
    ensures Recorded(rules, m, i, made) == m
  {
    if made != [] {
      RecordedNothing(rules, m, i, made[..|made| - 1]);
    }
  }

  lemma RoomLeft(rules: Rules, m: Memory, i: nat, s: Spawner)
    requires i < |m.instances| && SpawnerOf(rules.carriers, m.instances[i].template) == Some(s)
    requires s.maxLive != 0 ==> |m.instances[i].spawned| < s.maxLive
    requires s.trigger == OnAlert && rules.reinforceMax != 0 ==> |m.reinforceLive| < rules.reinforceMax
    ensures HasRoom(rules, m, i)
  {
  }
}
