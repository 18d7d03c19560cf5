/** The patrol director's admission of new squads: whole squads under three ceilings, its
    own agents, the server's agents, and squads a definition. */
module PatrolDirector {
  import opened AgentKernel
  import opened PatrolSteps
  import opened Sums
  import opened Waves
  import opened Wrappers
  import Allocation
  import Composition
  import SquadRoute

  class PatrolDirector {
    const definitions: seq<Definition>
    const maxLive: nat
    const randomness: (nat, nat) -> nat -> nat
    var runtimes: seq<Runtime>
    var squads: seq<Squad>
    var spawnedGroups: nat

    ghost predicate Valid()
      reads this
    {
      |runtimes| == |definitions| && DistinctIds(definitions) && forall d :: d in definitions ==> ValidDefinition(d)
    }

    /** No definition places a squad before its interval has passed once. */
    constructor (definitions: seq<Definition>, maxLive: nat, randomness: (nat, nat) -> nat -> nat)
      requires DistinctIds(definitions) && forall d :: d in definitions ==> ValidDefinition(d)
      ensures Valid() && squads == [] && spawnedGroups == 0
      ensures this.definitions == definitions && this.maxLive == maxLive && this.randomness == randomness
      ensures forall i :: 0 <= i < |definitions| ==> runtimes[i] == Runtime(definitions[i].intervalTicks, 0, 0)
    {
      this.definitions, this.maxLive, this.randomness := definitions, maxLive, randomness;
      runtimes := seq(|definitions|, i requires 0 <= i < |definitions| => Runtime(definitions[i].intervalTicks, 0, 0));
      squads, spawnedGroups := [], 0;
    }

    ghost function At(kernel: Kernel, inSquads: nat, live: nat): Stage
      reads this, kernel
    {
      Stage(runtimes, squads, spawnedGroups, inSquads, live, kernel.requests)
    }

    ghost function Count(kernel: Kernel): Totals
      reads this, kernel
    {
      Totals(kernel.Now(), |kernel.agents|, SquadAgents(squads), spawnedGroups)
    }

    /** One unit for the squad, if the kernel gives it. */
    method PlaceOne(kernel: Kernel, template: nat, members: seq<nat>, ghost world: World, ghost agents: nat,
                    ghost before: seq<Request>, ghost asked: seq<nat>)
        returns (next: seq<nat>)
      requires Placing(kernel, world, agents, |members|) && Formed(before, kernel.requests, members, asked)
      modifies kernel
      ensures Placing(kernel, world, agents, |next|) && |members| <= |next| <= |members| + 1
      ensures Formed(before, kernel.requests, next, asked + [template])
    {
      hide Later, Formed;
      ghost var now, requests := kernel.Now(), kernel.requests;
      var id := kernel.Create(template);
      CreatedLater(now, kernel.Now(), id, template);
      LaterStill(world, now, kernel.Now());
      FormedOne(before, requests, members, asked, Request(template, id));
      next := if id == 0 then members else members + [id];
    }

    /** All of one entry, and no more than `count` members in all. */
    method PlaceEntry(kernel: Kernel, template: nat, n: nat, count: nat, begun: seq<nat>, ghost world: World,
                      ghost agents: nat, ghost before: seq<Request>, ghost asked: seq<nat>)
        returns (members: seq<nat>)
      requires Placing(kernel, world, agents, |begun|) && Formed(before, kernel.requests, begun, asked)
      requires |begun| + n <= count
      modifies kernel
      ensures Placing(kernel, world, agents, |members|) && |begun| <= |members| <= |begun| + n
      ensures Formed(before, kernel.requests, members, asked + Copies(template, n))
    {
      OneCopyMore(asked, template, 0);
      assert asked + Copies(template, 0) == asked;
      hide *;
      members := begun;
      for spawned := 0 to n
        invariant Placing(kernel, world, agents, |members|) && |begun| <= |members| <= |begun| + spawned
        invariant Formed(before, kernel.requests, members, asked + Copies(template, spawned))
      {
        if |members| >= count {
          break;
        }
        members := PlaceOne(kernel, template, members, world, agents, before, asked + Copies(template, spawned));
        OneCopyMore(asked, template, spawned);
      }
    }

    /** All of one squad's units; those refused are left out. */
    method PlaceUnits(kernel: Kernel, shape: Allocation.Shape, count: nat, drawn: seq<nat>) returns (members: seq<nat>)
      requires kernel.Valid() && |drawn| == |shape.composition| && Sum(drawn) == count
      modifies kernel
      ensures Placing(kernel, old(kernel.Now()), |old(kernel.agents)|, |members|) && |members| <= count
      ensures Formed(old(kernel.requests), kernel.requests, members, Units(shape.composition, drawn))
    {
      ghost var world, agents, before := kernel.Now(), |kernel.agents|, kernel.requests;
      assert Units(shape.composition[..0], drawn[..0]) == [] && Sum(drawn[..0]) == 0;
      NonePlaced(kernel);
      NoneFormed(before);
      hide *;
      members := [];
      for entry := 0 to |drawn|
        invariant Placing(kernel, world, agents, |members|) && |members| <= Sum(drawn[..entry])
        invariant Formed(before, kernel.requests, members, Units(shape.composition[..entry], drawn[..entry]))
      {
        SumPrefix(drawn, entry);
        SumPrefixBound(drawn, entry + 1);
        UnitsNext(shape.composition, drawn, entry);
        members := PlaceEntry(kernel, shape.composition[entry].templateId, drawn[entry], count, members, world, agents,
                              before, Units(shape.composition[..entry], drawn[..entry]));
      }
      assert drawn[..|drawn|] == drawn && shape.composition[..|drawn|] == shape.composition;
    }

    /** Draws a squad and creates its units. */
    method FormSquad(kernel: Kernel, index: nat, shape: Allocation.Shape) returns (members: seq<nat>)
      requires Valid() && kernel.Valid() && index < |definitions| && Allocation.ValidShape(shape)
      modifies kernel
      ensures Placing(kernel, old(kernel.Now()), |old(kernel.agents)|, |members|) && |members| <= shape.countMax
      ensures Composition.BandsOpen(shape.composition)
      ensures Formed(old(kernel.requests), kernel.requests, members,
                     SquadOf(shape, randomness(definitions[index].id, runtimes[index].ordinal)))
    {
      CountsInOrder(shape);
      hide Allocation.ValidShape, Placing, Formed;
      var random := new Composition.RandomStream(randomness(definitions[index].id, runtimes[index].ordinal));
      var count := Composition.NextInRange(random, shape.countMin, shape.countMax);
      ghost var used := random.used;
      Composition.InRangeIs(random.values(0), shape.countMin, shape.countMax);
      var drawn := Composition.DrawSpawnComposition(shape.composition, count, random);
      DrawnExactly(shape, count, random.values, used);
      WaveIs(shape.composition, shape.countMin, shape.countMax, count, random.values, used, drawn);
      members := PlaceUnits(kernel, shape, count, drawn);
    }

    /** Places a squad; nothing made is no squad. */
    method SpawnSquad(kernel: Kernel, index: nat, shape: Allocation.Shape, ghost inSquads: nat, ghost live: nat)
        returns (placed: bool)
      requires Valid() && kernel.Valid() && index < |definitions| && Allocation.ValidShape(shape)
      modifies this`squads, this`runtimes, this`spawnedGroups, kernel
      ensures Valid() && kernel.Valid()
      ensures Admitted(old(Count(kernel)), Count(kernel), if placed then shape.countMax else 0)
      ensures
        if placed then Grown(old(squads), squads, definitions[index].id, shape.countMax)
        else squads == old(squads)
      ensures Composition.BandsOpen(shape.composition)
      ensures Placed(index, definitions[index], shape, randomness(definitions[index].id, old(runtimes[index]).ordinal),
                     old(At(kernel, inSquads, live)), At(kernel, inSquads, live), placed)
    {
      hide Allocation.ValidShape, ValidDefinition, SquadAgents, Later, SquadOf;
      var members := FormSquad(kernel, index, shape);
      if members == [] {
        return false;
      }
      OneMoreSquad(squads, Squad(definitions[index].id, members));
      squads := squads + [Squad(definitions[index].id, members)];
      runtimes := runtimes[index := runtimes[index].(ordinal := runtimes[index].ordinal + 1)];
      spawnedGroups := spawnedGroups + 1;
      return true;
    }

    /** A squad, if any of it is made, and the definition's wait; what it spends is its largest draw. */
    method Spend(kernel: Kernel, index: nat, shape: Allocation.Shape, ghost inSquads: nat, ghost live: nat)
        returns (spent: nat)
      requires Valid() && kernel.Valid() && index < |definitions| && Allocation.ValidShape(shape)
      modifies this`squads, this`runtimes, this`spawnedGroups, kernel
      ensures Valid() && kernel.Valid() && (spent == 0 || spent == shape.countMax)
      ensures Admitted(old(Count(kernel)), Count(kernel), spent)
      ensures spent == 0 ==> squads == old(squads)
      ensures spent != 0 ==> Grown(old(squads), squads, definitions[index].id, spent)
      ensures Spawned(index, definitions[index], shape,
                      randomness(definitions[index].id, old(runtimes[index]).ordinal),
                      old(At(kernel, inSquads, live)), At(kernel, inSquads + spent, live + spent))
    {
      hide ValidDefinition, SquadAgents, SquadsOf, Admitted, Placed, Spawned, Grown, DistinctIds, Later;
      CountsInOrder(shape);
      hide Allocation.ValidShape;
      var d := definitions[index];
      ghost var before, values := At(kernel, inSquads, live), randomness(d.id, runtimes[index].ordinal);
      var placed := SpawnSquad(kernel, index, shape, inSquads, live);
      ghost var middle := At(kernel, inSquads, live);
      spent := 0;
      if placed {
        runtimes := runtimes[index := runtimes[index].(wait := d.intervalTicks)];
        spent := shape.countMax;
      }
      SpawnedIs(index, d, shape, values, before, middle, placed, At(kernel, inSquads + spent, live + spent));
    }

    /** A squad aimed at the group of players it serves first, if it serves any. */
    method TakeAim(kernel: Kernel, index: nat, finding: Finding, state: Allocation.State, ghost inSquads: nat,
                   ghost live: nat) returns (spent: nat)
      requires Valid() && kernel.Valid() && index < |definitions| && ValidFinding(finding)
      modifies this`squads, this`runtimes, this`spawnedGroups, kernel
      ensures Valid() && kernel.Valid()
      ensures spent <= state.agentRoom && Admitted(old(Count(kernel)), Count(kernel), spent)
      ensures spent == 0 ==> squads == old(squads)
      ensures spent != 0 ==> Grown(old(squads), squads, definitions[index].id, spent)
      ensures Tried(index, definitions[index], finding, state,
                    randomness(definitions[index].id, old(runtimes[index]).ordinal),
                    old(At(kernel, inSquads, live)), At(kernel, inSquads + spent, live + spent))
    {
      hide Aimed, Admitted, SquadAgents, SquadsOf, ValidDefinition, ValidFinding, Grown, Spawned, DistinctIds, Later,
           Allocation.NothingServable, Allocation.Least, Allocation.CeilProduct;
      var d := definitions[index];
      AdmittedItself(kernel, this);
      var choice := Allocation.ChoosePatrolTarget(d.aim, finding.candidates, state);
      if choice.None? {
        return 0;
      }
      if !finding.route {
        runtimes := runtimes[index := runtimes[index].(retry := RETRY_TICKS)];
        return 0;
      }
      assert d in definitions;
      ChosenIsValid(d, finding, state, choice.value);
      ghost var before, values := At(kernel, inSquads, live), randomness(d.id, runtimes[index].ordinal);
      spent := Spend(kernel, index, choice.value.shape, inSquads, live);
      AimedIs(index, d, finding.candidates, state, choice.value, values, before,
              At(kernel, inSquads + spent, live + spent));
    }

    /** A squad aimed at a group of players, under the room all ceilings leave; what it
        spends is its largest draw. */
    method TickAroundPlayers(kernel: Kernel, index: nat, finding: Finding, room: nat, ghost ceiling: nat,
                             ghost inSquads: nat, ghost live: nat) returns (spent: nat)
      requires Valid() && kernel.Valid() && index < |definitions| && ValidFinding(finding)
      requires definitions[index].placement == AroundPlayers
      requires room == AgentRoom(maxLive, ceiling, At(kernel, inSquads, live))
      modifies this`squads, this`runtimes, this`spawnedGroups, kernel
      ensures Valid() && kernel.Valid()
      ensures spent <= room && Admitted(old(Count(kernel)), Count(kernel), spent)
      ensures spent == 0 ==> squads == old(squads)
      ensures spent != 0 ==> Grown(old(squads), squads, definitions[index].id, spent)
      ensures AroundTurn(index, definitions[index], finding, maxLive, ceiling,
                         randomness(definitions[index].id, old(runtimes[index]).ordinal),
                         old(At(kernel, inSquads, live)), At(kernel, inSquads + spent, live + spent))
    {
      hide AgentRoom, Tried, Admitted, SquadAgents, SquadsOf, ValidDefinition, ValidFinding, Grown, DistinctIds, Later;
      AdmittedItself(kernel, this);
      var elapsed := runtimes[index].wait == 0;
      if !elapsed {
        runtimes := runtimes[index := runtimes[index].(wait := runtimes[index].wait - 1)];
      }
      ghost var rt := old(runtimes[index]);
      assert runtimes == old(runtimes)[index := rt.(wait := if rt.wait == 0 then 0 else rt.wait - 1)];
      if runtimes[index].retry > 0 {
        runtimes := runtimes[index := runtimes[index].(retry := runtimes[index].retry - 1)];
        return 0;
      }
      var state := Allocation.State(SquadsOf(squads, definitions[index].id), finding.players, elapsed, room);
      spent := TakeAim(kernel, index, finding, state, inSquads, live);
    }

    /** Whether another squad may be placed in the definition's own area. */
    method MayOpen(kernel: Kernel, index: nat, route: bool, budget: AgentBudget, liveAgents: nat) returns (may: bool)
      requires index < |definitions|
      ensures may <==> Opens(definitions[index], route, maxLive, budget.ceiling, At(kernel, liveAgents, budget.live))
    {
      hide SquadsOf;
      var d := definitions[index];
      if SquadsOf(squads, d.id) >= d.maxLiveGroups {
        return false;
      }
      if maxLive != 0 && liveAgents + d.squad.countMax > maxLive {
        return false;
      }
      return budget.Room() >= d.squad.countMax && route;
    }

    /** A squad in the definition's own area, if its largest draw fits every ceiling. */
    method TickArea(kernel: Kernel, index: nat, route: bool, budget: AgentBudget, liveAgents: nat) returns (spent: nat)
      requires Valid() && kernel.Valid() && index < |definitions| && definitions[index].placement == Area
      modifies this`squads, this`runtimes, this`spawnedGroups, kernel
      ensures Valid() && kernel.Valid()
      ensures Admitted(old(Count(kernel)), Count(kernel), spent)
      ensures spent == 0 ==> squads == old(squads)
      ensures spent != 0 ==>
        && old(Opens(definitions[index], route, maxLive, budget.ceiling, At(kernel, liveAgents, budget.live)))
        && spent == definitions[index].squad.countMax && Grown(old(squads), squads, definitions[index].id, spent)
      ensures AreaTurn(index, definitions[index], route, maxLive, budget.ceiling,
                       randomness(definitions[index].id, old(runtimes[index]).ordinal),
                       old(At(kernel, liveAgents, budget.live)), At(kernel, liveAgents + spent, budget.live + spent))
    {
      hide Allocation.ValidShape, SquadAgents, SquadsOf, Admitted, Spawned, Grown, DistinctIds, Later, Opens;
      assert definitions[index] in definitions && Allocation.ValidShape(definitions[index].squad);
      hide ValidDefinition;
      AdmittedItself(kernel, this);
      if runtimes[index].wait > 0 {
        runtimes := runtimes[index := runtimes[index].(wait := runtimes[index].wait - 1)];
        return 0;
      }
      var may := MayOpen(kernel, index, route, budget, liveAgents);
      if !may {
        return 0;
      }
      spent := Spend(kernel, index, definitions[index].squad, liveAgents, budget.live);
    }

    /** One definition's turn. */
    method TickDefinition(kernel: Kernel, index: nat, finding: Finding, budget: AgentBudget, liveAgents: nat)
        returns (spent: nat)
      requires Valid() && kernel.Valid() && index < |definitions| && ValidFinding(finding)
      modifies this`squads, this`runtimes, this`spawnedGroups, kernel
      ensures Valid() && kernel.Valid()
      ensures Admitted(old(Count(kernel)), Count(kernel), spent)
      ensures spent != 0 && maxLive != 0 ==> liveAgents + spent <= maxLive
      ensures spent != 0 && budget.ceiling != 0 ==> budget.live + spent <= budget.ceiling
      ensures CapsKept(definitions, old(squads), squads) && old(squads) <= squads
      ensures PatrolTurn(definitions, maxLive, budget.ceiling, randomness, index, finding,
                         old(At(kernel, liveAgents, budget.live)), At(kernel, liveAgents + spent, budget.live + spent))
    {
      hide Admitted, SquadAgents, SquadsOf, ValidDefinition, ValidFinding, DistinctIds, AreaTurn, AroundTurn, Later;
      AdmittedItself(kernel, this);
      ghost var before := squads;
      if !definitions[index].onInterval {
        spent := 0;
      } else if definitions[index].placement == AroundPlayers {
        var room := budget.Room();
        if maxLive != 0 {
          room := if liveAgents >= maxLive then 0 else if room
            <= maxLive - liveAgents then room else maxLive - liveAgents;
        }
        spent := TickAroundPlayers(kernel, index, finding, room, budget.ceiling, liveAgents, budget.live);
      } else {
        spent := TickArea(kernel, index, finding.route, budget, liveAgents);
      }
      if squads != before {
        GrownKeepsCaps(definitions, before, squads, index, spent);
      }
    }

    /** A squad that has been let go holds no slot; its members are destroyed later. */
    method Retire(standings: seq<Standing>)
      requires |standings| == |squads|
      modifies this`squads
      ensures squads == Remaining(definitions, old(squads), standings)
      ensures SquadAgents(squads) <= SquadAgents(old(squads))
      ensures forall id :: SquadsOf(squads, id) <= SquadsOf(old(squads), id)
    {
      hide SquadAgents, SquadsOf, LetGo;
      var all, kept: seq<Squad> := squads, [];
      for k := 0 to |all|
        invariant kept == Remaining(definitions, all[..k], standings[..k])
        invariant SquadAgents(kept) <= SquadAgents(all[..k])
        invariant forall id :: SquadsOf(kept, id) <= SquadsOf(all[..k], id)
      {
        OneMoreSquad(all[..k], all[k]);
        assert all[..k + 1] == all[..k] + [all[k]];
        assert all[..k + 1][..k] == all[..k] && standings[..k + 1][..k] == standings[..k];
        if !LetGo(definitions, all[k], standings[k]) {
          OneMoreSquad(kept, all[k]);
          kept := kept + [all[k]];
        }
      }
      assert all[..|all|] == all && standings[..|all|] == standings;
      squads := kept;
    }

    /** Every definition in turn, each seeing what the ones before it spent. */
    method Tick(kernel: Kernel, standings: seq<Standing>, findings: seq<Finding>, budget: AgentBudget)
        returns (ghost stages: seq<Stage>)
      requires Valid() && kernel.Valid() && |standings| == |squads|
      requires |findings| == |definitions| && forall f :: f in findings ==> ValidFinding(f)
      modifies this`squads, this`runtimes, this`spawnedGroups, kernel, budget
      ensures Valid() && kernel.Valid() && Later(old(kernel.Now()), kernel.Now()) && old(kernel.alive) <= kernel.alive
      ensures old(spawnedGroups) <= spawnedGroups && |old(kernel.agents)| <= |kernel.agents|
      ensures old(spawnedGroups) == spawnedGroups
        ==> |kernel.agents| == |old(kernel.agents)| && budget.live == old(budget.live)
      ensures |kernel.agents| - |old(kernel.agents)| <= budget.live - old(budget.live)
      ensures Within(budget.ceiling, old(budget.live), budget.live)
      ensures Within(maxLive, SquadAgents(old(squads)), SquadAgents(squads))
      ensures CapsKept(definitions, old(squads), squads)
      ensures Remaining(definitions, old(squads), standings) <= squads
      ensures PatrolsTo(definitions, maxLive, budget.ceiling, randomness, findings, stages, |definitions|)
      ensures var remaining := Remaining(definitions, old(squads), standings);
        stages[0] == Stage(old(runtimes), remaining, old(spawnedGroups), SquadAgents(remaining), old(budget.live),
                           old(kernel.requests))
      ensures stages[|definitions|] == At(kernel, stages[|definitions|].inSquads, budget.live)
    {
      hide SquadAgents, ValidDefinition, ValidFinding, Admitted, Remaining, PatrolTurn, PatrolsTo, DistinctIds;
      Retire(standings);
      ghost var start, before, live := Count(kernel), squads, budget.live;
      AdmittedItself(kernel, this);
      var liveAgents := SquadAgents(squads);
      ghost var first := At(kernel, liveAgents, budget.live);
      stages := [first];
      PatrolsBegin(definitions, maxLive, budget.ceiling, randomness, findings, first);
      for index := 0 to |definitions|
        invariant Valid() && kernel.Valid()
        invariant Admitted(start, Count(kernel), budget.live - live) && Within(budget.ceiling, live, budget.live)
        invariant liveAgents == start.inSquads + (budget.live - live) && Within(maxLive, start.inSquads, liveAgents)
        invariant CapsKept(definitions, before, squads) && before <= squads
        invariant spawnedGroups == start.groups ==> budget.live == live
        invariant PatrolsTo(definitions, maxLive, budget.ceiling, randomness, findings, stages, index)
        invariant |stages| == index + 1 && stages[0] == first && stages[index] == At(kernel, liveAgents, budget.live)
      {
        ghost var middle, now, groups := Count(kernel), squads, spawnedGroups;
        assert findings[index] in findings;
        var spent := TickDefinition(kernel, index, findings[index], budget, liveAgents);
        AdmittedOn(start, middle, Count(kernel), budget.live - live, spent);
        CapsKeptOn(definitions, before, now, squads);
        ghost var next := At(kernel, liveAgents + spent, budget.live + spent);
        PatrolsOn(definitions, maxLive, budget.ceiling, randomness, findings, stages, index, next);
        stages := stages + [next];
        if spent != 0 {
          liveAgents := liveAgents + spent;
          budget.Spend(spent);
        }
      }
      AdmittedMeans(start, Count(kernel), budget.live - live);
    }
  }

  datatype Totals = Totals(world: World, agents: nat, inSquads: nat, groups: nat)

  /** What admitting squads does to the totals: all that is made is in squads and paid for,
      and anything made shows in the count of squads. */
  ghost predicate Admitted(a: Totals, b: Totals, spent: int) {
    && Later(a.world, b.world) && a.world.alive <= b.world.alive
    && 0 <= b.agents - a.agents <= spent
    && b.inSquads - a.inSquads == b.agents - a.agents
    && a.groups <= b.groups && (a.groups == b.groups <==> spent == 0)
  }

  lemma AdmittedOn(a: Totals, b: Totals, c: Totals, s: int, t: int)
    requires Admitted(a, b, s) && Admitted(b, c, t)
    ensures Admitted(a, c, s + t)
  {
    LaterStill(a.world, b.world, c.world);
  }

  lemma AdmittedItself(kernel: Kernel, patrols: PatrolDirector)
    requires kernel.Valid()
    ensures Admitted(patrols.Count(kernel), patrols.Count(kernel), 0)
  {
  }

  lemma AdmittedMeans(a: Totals, b: Totals, spent: int)
    requires Admitted(a, b, spent)
    ensures Later(a.world, b.world) && a.world.alive <= b.world.alive
    ensures 0 <= b.agents - a.agents <= spent && b.inSquads - a.inSquads == b.agents - a.agents
    ensures a.groups <= b.groups && (a.groups == b.groups <==> spent == 0)
  {
  }

  /** One more squad of this definition, of no more than so many. */
  ghost predicate Grown(s: seq<Squad>, t: seq<Squad>, id: nat, most: nat) {
    |t| == |s| + 1 && t[..|s|] == s && t[|s|].definition == id && 0 < |t[|s|].members| <= most
  }

  /** No area definition has more squads than it had, or than it may. */
  ghost predicate CapsKept(definitions: seq<Definition>, s: seq<Squad>, t: seq<Squad>) {
    forall i :: 0 <= i < |definitions| && definitions[i].placement == Area ==> CapKept(definitions[i], s, t)
  }

  ghost predicate CapKept(d: Definition, s: seq<Squad>, t: seq<Squad>) {
    SquadsOf(t, d.id) <= SquadsOf(s, d.id) || SquadsOf(t, d.id) <= d.maxLiveGroups
  }

  lemma CapsKeptOn(definitions: seq<Definition>, s: seq<Squad>, t: seq<Squad>, u: seq<Squad>)
    requires CapsKept(definitions, s, t) && CapsKept(definitions, t, u)
    ensures CapsKept(definitions, s, u)
  {
    forall i | 0 <= i < |definitions| && definitions[i].placement == Area ensures CapKept(definitions[i], s, u) {
      assert CapKept(definitions[i], s, t) && CapKept(definitions[i], t, u);
    }
  }

  ghost predicate DistinctIds(definitions: seq<Definition>) {
    forall i, j :: 0 <= i < j < |definitions| ==> definitions[i].id != definitions[j].id
  }

  lemma GrownKeepsCaps(definitions: seq<Definition>, s: seq<Squad>, t: seq<Squad>, index: nat, most: nat)
    requires DistinctIds(definitions) && index < |definitions| && Grown(s, t, definitions[index].id, most)
    requires definitions[index].placement == Area
      ==> SquadsOf(s, definitions[index].id) < definitions[index].maxLiveGroups
    ensures CapsKept(definitions, s, t)
  {
    assert t == s + [t[|s|]];
    OneMoreSquad(s, t[|s|]);
    forall i | 0 <= i < |definitions| && definitions[i].placement == Area ensures CapKept(definitions[i], s, t) {
      if i != index {
        assert definitions[i].id != definitions[index].id;
      }
    }
  }

  lemma ChosenIsValid(d: Definition, f: Finding, state: Allocation.State, choice: Allocation.Choice)
    requires ValidDefinition(d) && ValidFinding(f) && Allocation.Least(d.aim, f.candidates, state, choice)
    ensures Allocation.ValidShape(choice.shape) && 0 < choice.shape.countMax
  {
    hide Allocation.Servable;
    assert f.candidates[choice.index] in f.candidates;
    ShapeIsValid(d, f.candidates[choice.index].members);
    CountsInOrder(choice.shape);
  }

  /** What placing `made` units of a squad has done to the kernel. */
  ghost predicate Placing(kernel: Kernel, world: World, agents: nat, made: nat)
    reads kernel
  {
    && kernel.Valid() && Later(world, kernel.Now()) && world.alive <= kernel.alive
    && |kernel.agents| == agents + made
  }

  /** A validated squad's draw is exactly as big as it was to be. */
  lemma DrawnExactly(shape: Allocation.Shape, count: nat, values: nat -> nat, start: nat)
    requires Allocation.ValidShape(shape) && shape.countMin <= count <= shape.countMax
    ensures Composition.BandsOpen(shape.composition)
    ensures var drawn := Composition.Drawn(shape.composition, count, values, start);
      |drawn| == |shape.composition| && Sum(drawn) == count
  {
    Composition.TotalLaw(shape.composition, count, values, start);
  }

  lemma NonePlaced(kernel: Kernel)
    requires kernel.Valid()
    ensures Placing(kernel, kernel.Now(), |kernel.agents|, 0)
  {
  }
}
