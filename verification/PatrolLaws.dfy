/** When a patrol definition asks for a squad, and for how many units, told of one turn. */
module PatrolLaws {
  import opened AgentKernel
  import opened PatrolSteps
  import opened Waves
  import Allocation
  import Composition

  /** So many more keep within both ceilings. */
  predicate KeepWithin(maxLive: nat, ceiling: nat, a: Stage, n: nat) {
    && (ceiling == 0 || a.live + n <= ceiling)
    && (maxLive == 0 || a.inSquads + n <= maxLive)
  }

  /** What both ceilings leave is the most that keeps within both. */
  lemma RoomIsLargest(maxLive: nat, ceiling: nat, a: Stage, n: nat)
    requires 0 < n <= UNBOUNDED
    ensures n <= AgentRoom(maxLive, ceiling, a) <==> KeepWithin(maxLive, ceiling, a, n)
  {
  }

  /** How many of the squads are this definition's. */
  function Own(squads: seq<Squad>, id: nat): nat {
    |OwnAt(squads, id)|
  }

  function OwnAt(squads: seq<Squad>, id: nat): set<nat> {
    set k: nat | k < |squads| && squads[k].definition == id
  }

  lemma {:induction false} OwnIs(squads: seq<Squad>, id: nat)
    ensures SquadsOf(squads, id) == Own(squads, id)
  {
    if squads != [] {
      OwnIs(squads[..|squads| - 1], id);
      OneMoreOwn(squads, id);
    }
  }

  lemma OneMoreOwn(squads: seq<Squad>, id: nat)
    requires squads != []
    ensures Own(squads, id) == Own(squads[..|squads| - 1], id) + if squads[|squads| - 1].definition == id then 1 else 0
  {
    var last: nat := |squads| - 1;
    var before, one: set<nat> := OwnAt(squads[..last], id), if squads[last].definition == id then {last} else {};
    assert forall k: nat :: k in OwnAt(squads, id) <==> k in before || k in one;
    assert OwnAt(squads, id) == before + one && last !in before;
  }

  /** Everyone in a squad, named by the squad's place and by the place in it. */
  function Everyone(squads: seq<Squad>): set<(nat, nat)> {
    set k: nat, m: nat | k < |squads| && m < |squads[k].members| :: (k, m)
  }

  function Row(k: nat, n: nat): (r: set<(nat, nat)>)
    ensures |r| == n
    ensures forall p :: p in r <==> p.0 == k && p.1 < n
  {
    if n == 0 then {} else Row(k, n - 1) + {(k, n - 1)}
  }

  /** The agents in squads are counted squad by squad, whoever of them is alive. */
  lemma {:induction false} SquadAgentsAre(squads: seq<Squad>)
    ensures SquadAgents(squads) == |Everyone(squads)|
  {
    if squads != [] {
      var last: nat := |squads| - 1;
      var before, row := Everyone(squads[..last]), Row(last, |squads[last].members|);
      SquadAgentsAre(squads[..last]);
      assert forall k: nat, m: nat :: (k, m) in Everyone(squads) <==> (k, m) in before || (k, m) in row;
      assert Everyone(squads) == before + row && before !! row;
    }
  }

  /** A squad is let go exactly when it is not holding and either its route has been done for as long as its
      definition lets it linger or the nearest player is further off than it lets that be. */
  lemma {:induction false} LetGoExactly(definitions: seq<Definition>, squad: Squad, standing: Standing, i: nat)
    requires i < |definitions| && definitions[i].id == squad.definition
    requires forall j | 0 <= j < i :: definitions[j].id != squad.definition
    ensures LetGo(definitions, squad, standing) <==>
      && !standing.holding
      && (|| (standing.route.complete && definitions[i].lingerTicks <= standing.route.sinceComplete)
          || (standing.nearest.PlayerAt? && 0.0 < definitions[i].despawnDistance < standing.nearest.distance))
  {
    if i > 0 {
      LetGoExactly(definitions[1..], squad, standing, i - 1);
    }
  }

  /** One whose definition is gone never is. */
  lemma {:induction false} StrayStays(definitions: seq<Definition>, squad: Squad, standing: Standing)
    requires forall d :: d in definitions ==> d.id != squad.definition
    ensures !LetGo(definitions, squad, standing)
  {
    if definitions != [] {
      StrayStays(definitions[1..], squad, standing);
    }
  }

  /** What comes of a squad that is asked for: those given, in order, are one; its largest draw is spent and its
      definition waits again. If nobody is given there is no squad, and nothing is spent. */
  predicate NewSquad(index: nat, d: Definition, shape: Allocation.Shape, a: Stage, b: Stage)
    requires index < |a.runtimes|
  {
    && a.requests <= b.requests
    && var members, rt := Given(b.requests[|a.requests|..]), a.runtimes[index];
       if members == [] then b == a.(requests := b.requests)
       else
         && b.squads == a.squads + [Squad(d.id, members)] && b.groups == a.groups + 1
         && b.inSquads == a.inSquads + shape.countMax && b.live == a.live + shape.countMax
         && b.runtimes == a.runtimes[index := rt.(wait := d.intervalTicks, ordinal := rt.ordinal + 1)]
  }

  /** Those that were given, each in its place. */
  lemma GivenSplits(made: seq<Request>, r: Request)
    ensures Given(made + [r]) == Given(made) + if r.id != 0 then [r.id] else []
  {
    assert (made + [r])[..|made|] == made;
  }

  lemma SpawnedAsks(index: nat, d: Definition, shape: Allocation.Shape, values: nat -> nat, a: Stage, b: Stage)
    requires index < |a.runtimes| && Allocation.ValidShape(shape) && Spawned(index, d, shape, values, a, b)
    ensures NewSquad(index, d, shape, a, b)
    ensures |b.requests| == |a.requests| + Composition.InRange(values(0), shape.countMin, shape.countMax) > |a.requests|
  {
    hide Composition.InRange, WaveOf, Given;
    var n := Composition.InRange(values(0), shape.countMin, shape.countMax);
    Composition.InRangeIs(values(0), shape.countMin, shape.countMax);
    WaveSize(shape.composition, shape.countMin, shape.countMax, n, values);
  }

  /** A turn in its own area, told of its squads and of what keeps within both ceilings. */
  lemma AreaIs(index: nat, d: Definition, route: bool, maxLive: nat, ceiling: nat, values: nat -> nat, a: Stage,
               b: Stage)
    requires index < |a.runtimes| && 0 < d.squad.countMax <= UNBOUNDED
    requires AreaTurn(index, d, route, maxLive, ceiling, values, a, b)
    ensures var rt := a.runtimes[index];
      if rt.wait == 0 && Own(a.squads, d.id) < d.maxLiveGroups && KeepWithin(maxLive, ceiling, a, d.squad.countMax)
         && route
      then Spawned(index, d, d.squad, values, a, b)
      else b == a.(runtimes := a.runtimes[index := rt.(wait := if rt.wait == 0 then 0 else rt.wait - 1)])
  {
    OwnIs(a.squads, d.id);
    hide Own, SquadsOf, Spawned;
    assert a.runtimes[index := a.runtimes[index]] == a.runtimes;
  }

  /** In its own area a definition that goes by the clock asks for a squad exactly when its wait is over, it has fewer
      than it may, its largest draw keeps within both ceilings and there is a route; it asks for as many as it draws. */
  lemma AreaAsksExactly(definitions: seq<Definition>, maxLive: nat, ceiling: nat,
                        randomness: (nat, nat) -> nat -> nat, index: nat, finding: Finding, a: Stage, b: Stage)
    requires index < |definitions| && PatrolTurn(definitions, maxLive, ceiling, randomness, index, finding, a, b)
    requires definitions[index].placement == Area && Allocation.ValidShape(definitions[index].squad)
    requires definitions[index].squad.countMax <= UNBOUNDED
    ensures var d, rt := definitions[index], a.runtimes[index];
      if !d.onInterval then b == a
      else if rt.wait == 0 && Own(a.squads, d.id) < d.maxLiveGroups
              && KeepWithin(maxLive, ceiling, a, d.squad.countMax) && finding.route
      then
        && |b.requests| == |a.requests| + Composition.InRange(randomness(d.id, rt.ordinal)(0), d.squad.countMin,
                                                              d.squad.countMax)
        && NewSquad(index, d, d.squad, a, b)
      else b == a.(runtimes := a.runtimes[index := rt.(wait := if rt.wait == 0 then 0 else rt.wait - 1)])
  {
    hide AreaTurn, Own, KeepWithin, Spawned, NewSquad, Composition.InRange, Allocation.ValidShape;
    var d, rt := definitions[index], a.runtimes[index];
    CountsInOrder(d.squad);
    if d.onInterval {
      var values := randomness(d.id, rt.ordinal);
      AreaIs(index, d, finding.route, maxLive, ceiling, values, a, b);
      if rt.wait == 0 && Own(a.squads, d.id) < d.maxLiveGroups && KeepWithin(maxLive, ceiling, a, d.squad.countMax)
         && finding.route {
        SpawnedAsks(index, d, d.squad, values, a, b);
      }
    }
  }

  /** What a definition aimed at players lets its choice go by. */
  predicate Weighs(state: Allocation.State, d: Definition, finding: Finding, maxLive: nat, ceiling: nat, a: Stage,
                   index: nat)
    requires index < |a.runtimes|
  {
    && state.liveGroups == Own(a.squads, d.id) && state.players == finding.players
    && (state.intervalElapsed <==> a.runtimes[index].wait == 0)
    && state.agentRoom == AgentRoom(maxLive, ceiling, a)
  }

  /** A turn aimed at players, told of what it weighs. */
  lemma AroundIs(index: nat, d: Definition, finding: Finding, maxLive: nat, ceiling: nat, values: nat -> nat,
                 a: Stage, b: Stage, state: Allocation.State)
    requires index < |a.runtimes| && AroundTurn(index, d, finding, maxLive, ceiling, values, a, b)
    requires Weighs(state, d, finding, maxLive, ceiling, a, index)
    ensures var rt := a.runtimes[index];
      var waited := rt.(wait := if rt.wait == 0 then 0 else rt.wait - 1);
      if rt.retry > 0 then b == a.(runtimes := a.runtimes[index := waited.(retry := rt.retry - 1)])
      else Tried(index, d, finding, state, values, a.(runtimes := a.runtimes[index := waited]), b)
  {
    OwnIs(a.squads, d.id);
    hide Own, SquadsOf, AgentRoom, Tried;
    if a.runtimes[index].retry == 0 {
      assert state == Allocation.State(SquadsOf(a.squads, d.id), finding.players, a.runtimes[index].wait == 0,
                                       AgentRoom(maxLive, ceiling, a));
    }
  }

  /** The squad tried is that of the one least choice. */
  lemma TriedIs(index: nat, d: Definition, finding: Finding, state: Allocation.State, choice: Allocation.Choice,
                values: nat -> nat, a: Stage, b: Stage)
    requires index < |a.runtimes| && Tried(index, d, finding, state, values, a, b)
    requires Allocation.Least(d.aim, finding.candidates, state, choice)
    ensures if !finding.route then b == a.(runtimes := a.runtimes[index := a.runtimes[index].(retry := 30)])
      else Spawned(index, d, choice.shape, values, a, b)
  {
    LeastServes(d, finding, state, choice);
    hide Spawned, Allocation.Least, Allocation.NothingServable;
    if finding.route {
      var chosen :| Allocation.Least(d.aim, finding.candidates, state, chosen)
        && Spawned(index, d, chosen.shape, values, a, b);
      Allocation.LeastIsUnique(d.aim, finding.candidates, state, chosen, choice);
    }
  }

  /** Aimed at players, one that goes by the clock asks for a squad exactly when it is not waiting to try again, it
      finds a group it can serve and there is a route; it asks for as many as the squad of the group it serves first
      draws. */
  lemma AroundAsksExactly(definitions: seq<Definition>, maxLive: nat, ceiling: nat,
                          randomness: (nat, nat) -> nat -> nat, index: nat, finding: Finding, a: Stage, b: Stage,
                          state: Allocation.State, choice: Allocation.Choice)
    requires index < |definitions| && PatrolTurn(definitions, maxLive, ceiling, randomness, index, finding, a, b)
    requires definitions[index].placement == AroundPlayers
    requires Weighs(state, definitions[index], finding, maxLive, ceiling, a, index)
    requires Allocation.Least(definitions[index].aim, finding.candidates, state, choice)
    requires Allocation.ValidShape(choice.shape)
    ensures var d, rt := definitions[index], a.runtimes[index];
      var waited := rt.(wait := if rt.wait == 0 then 0 else rt.wait - 1);
      if !d.onInterval then b == a
      else if rt.retry > 0 then b == a.(runtimes := a.runtimes[index := waited.(retry := rt.retry - 1)])
      else if !finding.route then b == a.(runtimes := a.runtimes[index := waited.(retry := 30)])
      else
        && |b.requests| == |a.requests| + Composition.InRange(randomness(d.id, rt.ordinal)(0), choice.shape.countMin,
                                                              choice.shape.countMax)
        && NewSquad(index, d, choice.shape, a.(runtimes := a.runtimes[index := waited]), b)
  {
    hide Weighs, AroundTurn, Tried, Spawned, NewSquad, Composition.InRange, Allocation.ValidShape, Allocation.Least;
    var d, rt := definitions[index], a.runtimes[index];
    if d.onInterval {
      var values := randomness(d.id, rt.ordinal);
      AroundIs(index, d, finding, maxLive, ceiling, values, a, b, state);
      if rt.retry == 0 {
        var c := a.(runtimes := a.runtimes[index := rt.(wait := if rt.wait == 0 then 0 else rt.wait - 1)]);
        TriedIs(index, d, finding, state, choice, values, c, b);
        if finding.route {
          SpawnedAsks(index, d, choice.shape, values, c, b);
        }
      }
    }
  }

  /** Where no group can be served it only waits: a route is not looked for, and no retry begins. */
  lemma AroundAsksNobody(definitions: seq<Definition>, maxLive: nat, ceiling: nat,
                         randomness: (nat, nat) -> nat -> nat, index: nat, finding: Finding, a: Stage, b: Stage,
                         state: Allocation.State)
    requires index < |definitions| && PatrolTurn(definitions, maxLive, ceiling, randomness, index, finding, a, b)
    requires definitions[index].placement == AroundPlayers && definitions[index].onInterval
    requires Weighs(state, definitions[index], finding, maxLive, ceiling, a, index)
    requires Allocation.NothingServable(definitions[index].aim, finding.candidates, state)
    ensures var rt := a.runtimes[index];
      b == a.(runtimes := a.runtimes[index := Runtime(if rt.wait == 0 then 0 else rt.wait - 1,
                                                      if rt.retry == 0 then 0 else rt.retry - 1, rt.ordinal)])
  {
    hide Weighs, AroundTurn, Aimed, Allocation.NothingServable;
    var d := definitions[index];
    AroundIs(index, d, finding, maxLive, ceiling, randomness(d.id, a.runtimes[index].ordinal), a, b, state);
  }

  lemma LeastServes(d: Definition, finding: Finding, state: Allocation.State, choice: Allocation.Choice)
    requires Allocation.Least(d.aim, finding.candidates, state, choice)
    ensures !Allocation.NothingServable(d.aim, finding.candidates, state)
  {
    hide Allocation.Servable;
  }
}
