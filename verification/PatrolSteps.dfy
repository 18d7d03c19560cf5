/** One turn of a patrol definition, exactly: whether a squad is placed, which units the kernel is asked
    for, and what the squad and its size then are. */
module PatrolSteps {
  import opened AgentKernel
  import opened Waves
  import opened Wrappers
  import Allocation
  import Composition
  import SquadRoute

  datatype Placement = Area | AroundPlayers

  /** `maxLiveGroups` is read under `Area`, `aim` under `AroundPlayers`. */
  datatype Definition = Definition(id: nat, placement: Placement, onInterval: bool, intervalTicks: nat,
                                   maxLiveGroups: nat, squad: Allocation.Shape, aim: Allocation.Aim, lingerTicks: nat,
                                   despawnDistance: real)

  datatype Runtime = Runtime(wait: nat, retry: nat, ordinal: nat)

  datatype Squad = Squad(definition: nat, members: seq<nat>)

  /** How a squad stands when the pass begins: its walk, whether it holds, and how far off
      the nearest player is. */
  datatype Standing = Standing(route: SquadRoute.Route, holding: bool, nearest: SquadRoute.Nearest)

  /** What a definition finds this tick: the groups of players worth aiming at, and whether
      a route can be drawn. */
  datatype Finding = Finding(candidates: seq<Allocation.Candidate>, players: nat, route: bool)

  const RETRY_TICKS: nat := 30

  predicate ValidDefinition(d: Definition) {
    if d.aim.tiers == [] then d.aim.base == d.squad && Allocation.ValidShape(d.squad)
    else
      && d.placement == AroundPlayers && Allocation.Wide(d.aim.tiers) && Allocation.Accepted(d.aim.tiers)
      && d.aim.base == d.squad
  }

  /** Groups have at least one player in them. */
  predicate ValidFinding(f: Finding) {
    forall c :: c in f.candidates ==> 1 <= c.members < Allocation.WIDTH
  }

  // ----- counting -----------------------------------------------------------------------------

  /** Agents in squads, dead or alive: what the patrol budget is held against. */
  function SquadAgents(squads: seq<Squad>): nat {
    if squads == [] then 0 else SquadAgents(squads[..|squads| - 1]) + |squads[|squads| - 1].members|
  }

  function SquadsOf(squads: seq<Squad>, definition: nat): nat {
    if squads == [] then 0
    else SquadsOf(squads[..|squads| - 1], definition) + if squads[|squads| - 1].definition == definition then 1 else 0
  }

  lemma OneMoreSquad(squads: seq<Squad>, squad: Squad)
    ensures SquadAgents(squads + [squad]) == SquadAgents(squads) + |squad.members|
    ensures forall id ::
      SquadsOf(squads + [squad], id) == SquadsOf(squads, id) + if squad.definition == id then 1 else 0
  {
    assert (squads + [squad])[..|squads|] == squads;
  }

  lemma ShapeIsValid(d: Definition, members: nat)
    requires ValidDefinition(d) && 1 <= members < Allocation.WIDTH
    ensures Allocation.ValidShape(Allocation.SquadShape(d.aim, members))
  {
    if d.aim.tiers != [] {
      Allocation.SquadComesOutExact(d.aim, members);
    }
  }

  lemma CountsInOrder(shape: Allocation.Shape)
    requires Allocation.ValidShape(shape)
    ensures 0 < shape.countMin <= shape.countMax && Composition.BandsOpen(shape.composition)
  {
  }

  function DefinitionOf(definitions: seq<Definition>, id: nat): Option<Definition> {
    if definitions == [] then None
    else if definitions[0].id == id then Some(definitions[0]) else DefinitionOf(definitions[1..], id)
  }

  /** A squad whose definition is gone is left alone. */
  predicate LetGo(definitions: seq<Definition>, squad: Squad, standing: Standing) {
    var d := DefinitionOf(definitions, squad.definition);
    d.Some? && SquadRoute.Retires(standing.route, standing.holding, d.value.lingerTicks,
      d.value.despawnDistance, standing.nearest)
  }

  /** The squads that are not let go, in order. */
  function Remaining(definitions: seq<Definition>, squads: seq<Squad>, standings: seq<Standing>): seq<Squad>
    requires |standings| == |squads|
  {
    if squads == [] then []
    else
      var last := |squads| - 1;
      Remaining(definitions, squads[..last], standings[..last]) +
        if LetGo(definitions, squads[last], standings[last]) then [] else [squads[last]]
  }

  /** One that is holding always remains. */
  lemma {:induction false} HoldingRemains(definitions: seq<Definition>, squads: seq<Squad>, standings: seq<Standing>,
                                          k: nat)
    requires |standings| == |squads| && k < |squads| && standings[k].holding
    ensures squads[k] in Remaining(definitions, squads, standings)
  {
    var last := |squads| - 1;
    if k < last {
      HoldingRemains(definitions, squads[..last], standings[..last], k);
    }
  }

  // ----- one turn -------------------------------------------------------------------------------

  /** Where a pass stands: each definition's waits, the squads there are and how many were ever placed,
      the agents counted into squads and into the server's budget, and what has been asked. */
  datatype Stage = Stage(runtimes: seq<Runtime>, squads: seq<Squad>, groups: nat, inSquads: nat, live: nat,
                         requests: seq<Request>)

  /** What both ceilings leave. */
  function AgentRoom(maxLive: nat, ceiling: nat, a: Stage): nat {
    var room := RoomUnder(ceiling, a.live);
    if maxLive == 0 then room else Least(room, RoomUnder(maxLive, a.inSquads))
  }

  /** What a squad's random stream draws: how many, and then which. */
  function SquadOf(shape: Allocation.Shape, values: nat -> nat): seq<nat>
    requires Composition.BandsOpen(shape.composition)
  {
    WaveOf(shape.composition, shape.countMin, shape.countMax,
           Composition.InRange(values(0), shape.countMin, shape.countMax), values)
  }

  /** Units asked for since, in this order, and those of them that were given. */
  ghost predicate Formed(before: seq<Request>, after: seq<Request>, members: seq<nat>, asked: seq<nat>) {
    AskedFor(before, after, asked) && members == Given(after[|before|..])
  }

  lemma NoneFormed(requests: seq<Request>)
    ensures Formed(requests, requests, [], [])
  {
  }

  lemma FormedOne(before: seq<Request>, after: seq<Request>, members: seq<nat>, asked: seq<nat>, r: Request)
    requires Formed(before, after, members, asked)
    ensures Formed(before, after + [r], if r.id == 0 then members else members + [r.id], asked + [r.template])
  {
    AskedOne(before, after, asked, r);
    var more := (after + [r])[|before|..];
    assert more[..|more| - 1] == after[|before|..];
  }

  /** A whole squad asked for in order, whatever is refused. Nobody given is no squad; otherwise those given
      are one. */
  ghost predicate Placed(index: nat, d: Definition, shape: Allocation.Shape, values: nat -> nat, a: Stage, b: Stage,
                         placed: bool)
    requires index < |a.runtimes| && Composition.BandsOpen(shape.composition)
  {
    && AskedFor(a.requests, b.requests, SquadOf(shape, values))
    && var members, rt := Given(b.requests[|a.requests|..]), a.runtimes[index];
       && (placed <==> members != [])
       && if !placed then b == a.(requests := b.requests)
          else
            b == a.(runtimes := a.runtimes[index := rt.(ordinal := rt.ordinal + 1)],
                    squads := a.squads + [Squad(d.id, members)], groups := a.groups + 1, requests := b.requests)
  }

  /** If a squad is placed, its largest draw is spent and the definition waits again. */
  ghost predicate Spawned(index: nat, d: Definition, shape: Allocation.Shape, values: nat -> nat, a: Stage, b: Stage)
    requires index < |a.runtimes|
  {
    && Composition.BandsOpen(shape.composition)
    && exists c, placed :: Placed(index, d, shape, values, a, c, placed) && index < |c.runtimes|
         && b == if placed then Spent(index, d, shape, c) else c
  }

  function Spent(index: nat, d: Definition, shape: Allocation.Shape, c: Stage): Stage
    requires index < |c.runtimes|
  {
    c.(runtimes := c.runtimes[index := c.runtimes[index].(wait := d.intervalTicks)],
       inSquads := c.inSquads + shape.countMax, live := c.live + shape.countMax)
  }

  lemma SpawnedIs(index: nat, d: Definition, shape: Allocation.Shape, values: nat -> nat, a: Stage, c: Stage,
                  placed: bool, b: Stage)
    requires index < |a.runtimes| && index < |c.runtimes| && Composition.BandsOpen(shape.composition)
    requires Placed(index, d, shape, values, a, c, placed)
    requires b == if placed then Spent(index, d, shape, c) else c
    ensures Spawned(index, d, shape, values, a, b)
  {
    hide Placed;
  }

  /** It has fewer squads than it may, its largest draw fits both ceilings, and a route is found. */
  predicate Opens(d: Definition, route: bool, maxLive: nat, ceiling: nat, a: Stage) {
    && SquadsOf(a.squads, d.id) < d.maxLiveGroups
    && (maxLive == 0 || a.inSquads + d.squad.countMax <= maxLive)
    && d.squad.countMax <= RoomUnder(ceiling, a.live) && route
  }

  /** A squad in the definition's own area, once its wait is over; until one is placed its wait stays over. */
  ghost predicate AreaTurn(index: nat, d: Definition, route: bool, maxLive: nat, ceiling: nat, values: nat -> nat,
                           a: Stage, b: Stage)
    requires index < |a.runtimes|
  {
    var rt := a.runtimes[index];
    if rt.wait > 0 then b == a.(runtimes := a.runtimes[index := rt.(wait := rt.wait - 1)])
    else if !Opens(d, route, maxLive, ceiling, a) then b == a
    else Spawned(index, d, d.squad, values, a, b)
  }

  /** A squad aimed at the players. Its wait and its retry run down at once, and nothing is tried before the
      retry is over. */
  ghost predicate AroundTurn(index: nat, d: Definition, finding: Finding, maxLive: nat, ceiling: nat,
                             values: nat -> nat, a: Stage, b: Stage)
    requires index < |a.runtimes|
  {
    var rt := a.runtimes[index];
    var waited := rt.(wait := if rt.wait == 0 then 0 else rt.wait - 1);
    if rt.retry > 0 then b == a.(runtimes := a.runtimes[index := waited.(retry := rt.retry - 1)])
    else
      Tried(index, d, finding,
            Allocation.State(SquadsOf(a.squads, d.id), finding.players, rt.wait == 0, AgentRoom(maxLive, ceiling, a)),
            values, a.(runtimes := a.runtimes[index := waited]), b)
  }

  /** If any group of players can be served, and no route to it is found, that is tried again in a while. */
  ghost predicate Tried(index: nat, d: Definition, finding: Finding, state: Allocation.State, values: nat -> nat,
                        a: Stage, b: Stage)
    requires index < |a.runtimes|
  {
    if Allocation.NothingServable(d.aim, finding.candidates, state) then b == a
    else if !finding.route then b == a.(runtimes := a.runtimes[index := a.runtimes[index].(retry := RETRY_TICKS)])
    else Aimed(index, d, finding.candidates, state, values, a, b)
  }

  ghost predicate Aimed(index: nat, d: Definition, candidates: seq<Allocation.Candidate>, state: Allocation.State,
                        values: nat -> nat, a: Stage, b: Stage)
    requires index < |a.runtimes|
  {
    exists choice ::
      Allocation.Least(d.aim, candidates, state, choice) && Spawned(index, d, choice.shape, values, a, b)
  }

  lemma AimedIs(index: nat, d: Definition, candidates: seq<Allocation.Candidate>, state: Allocation.State,
                choice: Allocation.Choice, values: nat -> nat, a: Stage, b: Stage)
    requires index < |a.runtimes|
    requires Allocation.Least(d.aim, candidates, state, choice) && Spawned(index, d, choice.shape, values, a, b)
    ensures Aimed(index, d, candidates, state, values, a, b)
  {
    hide Spawned, Allocation.Least;
  }

  ghost predicate PatrolTurn(definitions: seq<Definition>, maxLive: nat, ceiling: nat,
                             randomness: (nat, nat) -> nat -> nat, index: nat, finding: Finding, a: Stage, b: Stage)
    requires index < |definitions|
  {
    && index < |a.runtimes|
    && var d := definitions[index];
       var values := randomness(d.id, a.runtimes[index].ordinal);
       if !d.onInterval then b == a
       else if d.placement == Area then AreaTurn(index, d, finding.route, maxLive, ceiling, values, a, b)
       else AroundTurn(index, d, finding, maxLive, ceiling, values, a, b)
  }

  /** Definition after definition. */
  ghost predicate PatrolsTo(definitions: seq<Definition>, maxLive: nat, ceiling: nat,
                            randomness: (nat, nat) -> nat -> nat, findings: seq<Finding>, stages: seq<Stage>, n: nat)
    requires n <= |definitions| == |findings|
  {
    && |stages| == n + 1
    && forall i: nat | i < n ::
         PatrolTurn(definitions, maxLive, ceiling, randomness, i, findings[i], stages[i], stages[i + 1])
  }

  lemma PatrolsBegin(definitions: seq<Definition>, maxLive: nat, ceiling: nat, randomness: (nat, nat) -> nat -> nat,
                     findings: seq<Finding>, first: Stage)
    requires |definitions| == |findings|
    ensures PatrolsTo(definitions, maxLive, ceiling, randomness, findings, [first], 0)
  {
  }

  lemma PatrolsOn(definitions: seq<Definition>, maxLive: nat, ceiling: nat, randomness: (nat, nat) -> nat -> nat,
                  findings: seq<Finding>, stages: seq<Stage>, n: nat, next: Stage)
    requires n < |definitions| == |findings|
    requires PatrolsTo(definitions, maxLive, ceiling, randomness, findings, stages, n)
    requires PatrolTurn(definitions, maxLive, ceiling, randomness, n, findings[n], stages[n], next)
    ensures PatrolsTo(definitions, maxLive, ceiling, randomness, findings, stages + [next], n + 1)
  {
    hide PatrolTurn;
  }
}
