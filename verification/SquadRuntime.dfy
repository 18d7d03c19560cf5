/** Squads as the server runs them: members looked up by net id, casualties dropped, alerts
    passed on, the cursor walked and everyone given a slot, all in place. */
module SquadRuntime {
  import opened Geometry
  import opened Engagement
  import opened AgentEvents
  import opened SquadQuiescence
  import opened SquadRoute
  import opened ChaserController
  import opened Sorting

  // ----- finding an agent --------------------------------------------------------------------

  datatype Entry = Entry(netId: nat, position: nat)

  class AgentIndex {
    var entries: seq<Entry>

    constructor ()
      ensures entries == []
    {
      entries := [];
    }

    /** In net id order, and naming every agent once. */
    ghost predicate Indexes(agents: seq<AgentState>)
      reads this
    {
      && (forall i, j :: 0 <= i < j < |entries| ==> entries[i].netId <= entries[j].netId)
      && (forall e :: e in entries <==> e.position < |agents| && e.netId == agents[e.position].netId)
    }

    method Rebuild(agents: seq<AgentState>)
      modifies this
      ensures Indexes(agents)
    {
      var found: seq<Entry> := [];
      for position := 0 to |agents|
        invariant forall e :: e in found <==> e.position < position && e.netId == agents[e.position].netId
      {
        found := found + [Entry(agents[position].netId, position)];
      }
      var less, tie := (a: Entry, b: Entry) => a.netId < b.netId, (a: Entry, b: Entry) => true;
      entries := StableSort(less, found);
      SortOrders(less, tie, found);
      forall i, j | 0 <= i < j < |entries| ensures entries[i].netId <= entries[j].netId {
        assert Before(less, tie, entries[i], entries[j]);
      }
      forall e ensures e in entries <==> e in found {
        assert e in multiset(entries) <==> e in multiset(found);
      }
    }

    /** The first entry that is not below the id, by halving. */
    method Find(id: nat, ghost agents: seq<AgentState>) returns (found: bool, position: nat)
      requires Indexes(agents)
      ensures found <==> id in Ids(agents)
      ensures found ==> position < |agents| && agents[position].netId == id
    {
      var low, high := 0, |entries|;
      while low < high
        invariant 0 <= low <= high <= |entries|
        invariant forall i :: 0 <= i < low ==> entries[i].netId < id
        invariant forall i :: high <= i < |entries| ==> entries[i].netId >= id
      {
        var middle := (low + high) / 2;
        if entries[middle].netId < id {
          low := middle + 1;
        } else {
          high := middle;
        }
      }
      if low == |entries| || entries[low].netId != id {
        forall a | a in agents ensures a.netId != id {
          var p :| 0 <= p < |agents| && agents[p] == a;
          assert Entry(a.netId, p) in entries;
          var i :| 0 <= i < |entries| && entries[i] == Entry(a.netId, p);
        }
        return false, 0;
      }
      assert entries[low] in entries;
      return true, entries[low].position;
    }
  }

  // ----- casualties -----------------------------------------------------------------------------

  /** A member and where it stands in the formation. */
  datatype Post = Post(id: nat, offset: Vec3)

  function Posts(ids: seq<nat>, offsets: seq<Vec3>): (p: seq<Post>)
    requires |ids| == |offsets|
    ensures |p| == |ids|
  {
    seq(|ids|, i requires 0 <= i < |ids| => Post(ids[i], offsets[i]))
  }

  function Living(posts: seq<Post>, alive: set<nat>): (r: seq<Post>)
    ensures forall p :: p in r <==> p in posts && p.id in alive
  {
    if posts == [] then []
    else
      assert posts == [posts[0]] + posts[1..];
      (if posts[0].id in alive then [posts[0]] else []) + Living(posts[1..], alive)
  }

  lemma {:induction false} LivingDistinct(posts: seq<Post>, alive: set<nat>)
    requires forall i, j :: 0 <= i < j < |posts| ==> posts[i].id != posts[j].id
    ensures forall i, j :: 0 <= i < j < |Living(posts, alive)| ==>
      Living(posts, alive)[i].id != Living(posts, alive)[j].id
  {
    if posts != [] {
      LivingDistinct(posts[1..], alive);
      var rest := Living(posts[1..], alive);
      forall j | 0 <= j < |rest| ensures rest[j].id != posts[0].id {
        assert rest[j] in posts[1..];
      }
    }
  }

  function Cut<T>(s: seq<T>, k: nat): (r: seq<T>)
    requires k < |s|
    ensures |r| == |s| - 1
  {
    s[..k] + s[k + 1..]
  }

  /** The places from `remaining` on have been looked at. */
  ghost predicate Dropping(ids: seq<nat>, offsets: seq<Vec3>, before: seq<Post>, remaining: int, alive: set<nat>) {
    && 0 <= remaining <= |before| && remaining <= |ids| == |offsets|
    && Posts(ids, offsets) == before[..remaining] + Living(before[remaining..], alive)
  }

  lemma StartDropping(ids: seq<nat>, offsets: seq<Vec3>, alive: set<nat>)
    requires |ids| == |offsets|
    ensures Dropping(ids, offsets, Posts(ids, offsets), |ids|, alive)
  {
    var before := Posts(ids, offsets);
    assert before == before[..|before|] + Living(before[|before|..], alive);
  }

  lemma DropOn(ids: seq<nat>, offsets: seq<Vec3>, before: seq<Post>, remaining: int, alive: set<nat>)
    requires remaining > 0 && Dropping(ids, offsets, before, remaining, alive)
    ensures remaining <= |ids| == |offsets|
    ensures ids[remaining - 1] in alive ==> Dropping(ids, offsets, before, remaining - 1, alive)
    ensures ids[remaining - 1] !in alive ==>
      Dropping(Cut(ids, remaining - 1), Cut(offsets, remaining - 1), before, remaining - 1, alive)
  {
    hide Posts, Living, Cut;
    var member, now := remaining - 1, Posts(ids, offsets);
    var rest := Living(before[remaining..], alive);
    PostAt(ids, offsets, member);
    PostsCut(ids, offsets, member);
    LivingFrom(before, member, alive);
    Parts(now, before, member, rest);
  }

  lemma Parts(now: seq<Post>, before: seq<Post>, k: nat, rest: seq<Post>)
    requires k < |before| && now == before[..k + 1] + rest
    ensures k < |now| && now[k] == before[k] && now == before[..k] + ([before[k]] + rest)
      && Cut(now, k) == before[..k] + rest
  {
    assert before[..k + 1] == before[..k] + [before[k]];
  }

  lemma PostAt(ids: seq<nat>, offsets: seq<Vec3>, k: nat)
    requires |ids| == |offsets| && k < |ids|
    ensures Posts(ids, offsets)[k].id == ids[k]
  {
  }

  lemma PostsCut(ids: seq<nat>, offsets: seq<Vec3>, k: nat)
    requires |ids| == |offsets| && k < |ids|
    ensures Posts(Cut(ids, k), Cut(offsets, k)) == Cut(Posts(ids, offsets), k)
  {
  }

  lemma LivingFrom(posts: seq<Post>, k: nat, alive: set<nat>)
    requires k < |posts|
    ensures Living(posts[k..], alive)
      == (if posts[k].id in alive then [posts[k]] else []) + Living(posts[k + 1..], alive)
  {
    assert posts[k..][1..] == posts[k + 1..];
  }

  lemma Dropped(ids: seq<nat>, offsets: seq<Vec3>, before: seq<Post>, alive: set<nat>)
    requires Dropping(ids, offsets, before, 0, alive)
    ensures Posts(ids, offsets) == Living(before, alive)
    ensures (forall i, j :: 0 <= i < j < |before| ==> before[i].id != before[j].id) ==>
      forall i, j :: 0 <= i < j < |ids| ==> ids[i] != ids[j]
  {
    assert before[0..] == before;
    var after := Posts(ids, offsets);
    assert forall i :: 0 <= i < |ids| ==> after[i].id == ids[i];
    hide Posts, Living;
    assert after == Living(before, alive);
    if forall i, j :: 0 <= i < j < |before| ==> before[i].id != before[j].id {
      LivingDistinct(before, alive);
    }
  }

  ghost function Ids(agents: seq<AgentState>): set<nat> {
    set a | a in agents :: a.netId
  }

  // ----- formation ---------------------------------------------------------------------------------

  const HEADING_EPSILON: real := 0.0001

  /** Turned so that +X points along the heading. */
  function RotateIntoHeading(sqrt: real -> real, offset: Vec3, heading: (real, real)): Vec3
    requires IsSqrt(sqrt)
  {
    var length := sqrt(Square(heading.0) + Square(heading.1));
    if length <= HEADING_EPSILON then offset
    else Turned2(offset, heading.0 / length, heading.1 / length)
  }

  function Turned2(offset: Vec3, x: real, z: real): Vec3 {
    Vec3(offset.x * x - offset.z * z, offset.y, offset.x * z + offset.z * x)
  }

  function Slot(sqrt: real -> real, cursor: Vec3, offset: Vec3, heading: (real, real)): Vec3
    requires IsSqrt(sqrt)
  {
    var turned := RotateIntoHeading(sqrt, offset, heading);
    Vec3(cursor.x + turned.x, cursor.y + turned.y, cursor.z + turned.z)
  }

  /** However the route turns, members stand as far apart as they were authored to. */
  lemma FormationKeepsShape(sqrt: real -> real, cursor: Vec3, a: Vec3, b: Vec3, heading: (real, real))
    requires IsSqrt(sqrt)
    ensures Horizontal2(Slot(sqrt, cursor, a, heading), Slot(sqrt, cursor, b, heading)) == Horizontal2(a, b)
  {
    hide *;
    SlotsApart(sqrt, cursor, a, b, heading);
    TurningKeepsApart(sqrt, a, b, heading);
  }

  lemma TurningKeepsApart(sqrt: real -> real, a: Vec3, b: Vec3, heading: (real, real))
    requires IsSqrt(sqrt)
    ensures Horizontal2(RotateIntoHeading(sqrt, a, heading), RotateIntoHeading(sqrt, b, heading)) == Horizontal2(a, b)
  {
    var length := sqrt(Square(heading.0) + Square(heading.1));
    hide Square, Horizontal2, Turned2;
    if length > HEADING_EPSILON {
      var x, z := heading.0 / length, heading.1 / length;
      UnitHeading(heading.0, heading.1, length, x, z);
      var dx, dz := b.x - a.x, b.z - a.z;
      var u, w := dx * x - dz * z, dx * z + dz * x;
      calc {
        Horizontal2(RotateIntoHeading(sqrt, a, heading), RotateIntoHeading(sqrt, b, heading));
        Horizontal2(Turned2(a, x, z), Turned2(b, x, z));
        { TurnedApart(a, b, x, z, u, w); }
        Square(u) + Square(w);
        { TurnKeepsLength(dx, dz, x, z, u, w); }
        Square(dx) + Square(dz);
        { HorizontalSquares(a, b, dx, dz); }
        Horizontal2(a, b);
      }
    }
  }

  lemma HorizontalSquares(a: Vec3, b: Vec3, dx: real, dz: real)
    requires dx == b.x - a.x && dz == b.z - a.z
    ensures Horizontal2(a, b) == Square(dx) + Square(dz)
  {
  }

  lemma SlotsApart(sqrt: real -> real, cursor: Vec3, a: Vec3, b: Vec3, heading: (real, real))
    requires IsSqrt(sqrt)
    ensures Horizontal2(Slot(sqrt, cursor, a, heading), Slot(sqrt, cursor, b, heading)) ==
            Horizontal2(RotateIntoHeading(sqrt, a, heading), RotateIntoHeading(sqrt, b, heading))
  {
    hide RotateIntoHeading;
    var p, q := RotateIntoHeading(sqrt, a, heading), RotateIntoHeading(sqrt, b, heading);
    var r, s := Slot(sqrt, cursor, a, heading), Slot(sqrt, cursor, b, heading);
    SquareCongruent(s.x - r.x, q.x - p.x);
    SquareCongruent(s.z - r.z, q.z - p.z);
  }

  lemma TurnedApart(a: Vec3, b: Vec3, x: real, z: real, u: real, w: real)
    requires u == (b.x - a.x) * x - (b.z - a.z) * z && w == (b.x - a.x) * z + (b.z - a.z) * x
    ensures Horizontal2(Turned2(a, x, z), Turned2(b, x, z)) == Square(u) + Square(w)
  {
    var p, q := Turned2(a, x, z), Turned2(b, x, z);
    SquareCongruent(q.x - p.x, u);
    SquareCongruent(q.z - p.z, w);
  }

  lemma SquareCongruent(a: real, b: real)
    requires a == b
    ensures Square(a) == Square(b)
  {
  }

  lemma UnitHeading(hx: real, hz: real, length: real, x: real, z: real)
    requires length > 0.0 && length * length == Square(hx) + Square(hz) && x == hx / length && z == hz / length
    ensures x * x + z * z == 1.0
  {
    assert x * length == hx && z * length == hz;
    Regroup(x, length, x, length);
    Regroup(z, length, z, length);
    SquareOrder(0.0, length);
    assert (x * x + z * z) * (length * length) == (x * x) * (length * length) + (z * z) * (length * length);
    Cancel(x * x + z * z, 1.0, length * length);
  }

  lemma TurnKeepsLength(dx: real, dz: real, x: real, z: real, u: real, w: real)
    requires x * x + z * z == 1.0 && u == dx * x - dz * z && w == dx * z + dz * x
    ensures Square(u) + Square(w) == Square(dx) + Square(dz)
  {
    var p, q, r, s := dx * x, dz * z, dx * z, dz * x;
    Regroup(dx, x, dx, x);
    Regroup(dz, z, dz, z);
    Regroup(dx, z, dx, z);
    Regroup(dz, x, dz, x);
    Regroup(dx, x, dz, z);
    Regroup(dx, z, dz, x);
    assert p * q == (dx * dz) * (x * z) && r * s == (dx * dz) * (z * x);
    assert p * p + q * q + r * r + s * s == (dx * dx) * (x * x + z * z) + (dz * dz) * (x * x + z * z);
    assert Square(u) == p * p - 2.0 * (p * q) + q * q;
    assert Square(w) == r * r + 2.0 * (r * s) + s * s;
  }

  // ----- one squad -----------------------------------------------------------------------------------

  ghost function Squad(members: seq<AgentState>): (s: seq<Member>)
    reads members
    ensures |s| == |members|
  {
    seq(|members|, i requires 0 <= i < |members| reads members => Member(members[i].netId, members[i].Snapshot()))
  }

  ghost predicate Distinct(members: seq<AgentState>) {
    forall i, j :: 0 <= i < j < |members| ==> members[i] != members[j]
  }

  function Settled(a: Agent, slot: Vec3): Agent {
    a.(place := a.place.(inSquad := true, slot := slot))
  }

  class PatrolGroup {
    const id: nat
    const definition: nat
    const pace: Pace
    var route: Route
    var holding: bool
    var memberIds: seq<nat>
    var memberOffsets: seq<Vec3>

    constructor (id: nat, definition: nat, waypoints: seq<Vec3>, origin: Vec3, ids: seq<nat>, offsets: seq<Vec3>,
                 pace: Pace)
      ensures this.id == id && this.definition == definition && this.pace == pace && !holding
      ensures route == Route(waypoints, 0, origin, false, 0) && memberIds == ids && memberOffsets == offsets
    {
      this.id, this.definition, this.pace, holding := id, definition, pace, false;
      route, memberIds, memberOffsets := Route(waypoints, 0, origin, false, 0), ids, offsets;
    }

    ghost predicate Valid()
      reads this
    {
      && |memberIds| == |memberOffsets| && pace.radius >= 0.0
      && forall i, j :: 0 <= i < j < |memberIds| ==> memberIds[i] != memberIds[j]
    }

    /** From the back, so that dropping one does not move those not yet looked at: whoever
        is left keeps the place it had. */
    method DropCasualties(agents: seq<AgentState>, index: AgentIndex)
      requires Valid() && index.Indexes(agents)
      modifies this`memberIds, this`memberOffsets
      ensures Valid()
      ensures Posts(memberIds, memberOffsets) == Living(old(Posts(memberIds, memberOffsets)), Ids(agents))
    {
      ghost var before, alive := Posts(memberIds, memberOffsets), Ids(agents);
      hide Posts, Living, Dropping, Ids, Cut, AgentIndex.Indexes;
      StartDropping(memberIds, memberOffsets, alive);
      var remaining := |memberIds|;
      while remaining > 0
        invariant Dropping(memberIds, memberOffsets, before, remaining, alive)
      {
        var member := remaining - 1;
        DropOn(memberIds, memberOffsets, before, remaining, alive);
        var found, _ := index.Find(memberIds[member], agents);
        if !found {
          memberIds, memberOffsets := Cut(memberIds, member), Cut(memberOffsets, member);
        }
        remaining := member;
      }
      Dropped(memberIds, memberOffsets, before, alive);
    }

    /** The members themselves, once none is missing. */
    method Resolve(agents: seq<AgentState>, index: AgentIndex) returns (members: seq<AgentState>)
      requires Valid() && index.Indexes(agents) && forall m :: m in memberIds ==> m in Ids(agents)
      ensures |members| == |memberIds| && Distinct(members)
      ensures forall i :: 0 <= i < |members| ==> members[i] in agents && members[i].netId == memberIds[i]
    {
      members := [];
      for k := 0 to |memberIds|
        invariant |members| == k
        invariant forall i :: 0 <= i < k ==> members[i] in agents && members[i].netId == memberIds[i]
      {
        assert memberIds[k] in memberIds;
        var found, position := index.Find(memberIds[k], agents);
        members := members + [agents[position]];
      }
    }

    /** One member in a fight holds the squad; the first with something of its own to look
        at is whom the others turn with. */
    method Hold(members: seq<AgentState>) returns (alerting: nat)
      modifies this`holding
      ensures holding == Holding(Squad(members)) && alerting == FirstAlerting(Squad(members))
    {
      holding, alerting := false, |members|;
      ghost var squad := Squad(members);
      for k := 0 to |members|
        invariant holding <==> exists i :: 0 <= i < k && Engaged(squad[i].agent.sentry.state)
        invariant if alerting == |members| then forall i :: 0 <= i < k ==> !Alerting(squad[i].agent)
                  else (alerting < k && Alerting(squad[alerting].agent)
                        && forall i :: 0 <= i < alerting ==> !Alerting(squad[i].agent))
      {
        var member := members[k];
        assert squad[k].agent == member.Snapshot();
        if Engaged(member.sentry.state) {
          holding := true;
          var hearsay := member.sentry.bySquad && member.sentry.target == 0;
          if alerting == |members| && member.sentry.hasAttention && !hearsay {
            alerting := k;
          }
        }
      }
      FirstIs(squad, alerting);
      assert forall i :: 0 <= i < |squad| ==> squad[i] in squad;
    }

    /** Whoever is idle in formation alerts, looking where the engaged member looks. */
    method TurnSquad(members: seq<AgentState>, alerting: nat)
      requires Distinct(members) && alerting == FirstAlerting(Squad(members))
      modifies members
      ensures Squad(members) == PassAlert(old(Squad(members)))
    {
      if alerting == |members| {
        return;
      }
      ghost var squad := Squad(members);
      var source := members[alerting].sentry;
      assert squad[alerting].agent.sentry == source;
      hide AlertedBySquad, InFormation;
      for k := 0 to |members|
        invariant forall i :: 0 <= i < k ==> members[i].Snapshot() == Turned(squad[i], source).agent
        invariant forall i :: k <= i < |members| ==> members[i].Snapshot() == squad[i].agent
      {
        var member := members[k];
        if IsInFormation(member) {
          member.AlertBySquad(source);
        }
      }
      TurnedAll(squad, Squad(members), source);
    }

    predicate IsInFormation(member: AgentState)
      reads member
      ensures IsInFormation(member) <==> InFormation(member.Snapshot())
    {
      member.sentry.state == Idle && member.place.inSquad && Within(member.position, member.place.slot, AWAY_FROM_SLOT)
    }

    /** The cursor's walk, leg by leg, for as far as one tick goes. */
    method WalkRoute(sqrt: real -> real, dt: real) returns (heading: (real, real))
      requires IsSqrt(sqrt) && pace.radius >= 0.0
      modifies this`route
      ensures route == RouteTick(sqrt, pace, dt, holding, old(route))
      ensures heading == Facing(sqrt, pace, dt, holding, old(route))
    {
      ghost var before := route;
      heading := FirstHeading(route);
      if !holding && !route.complete {
        var cursor, next: nat, remaining := route.cursor, route.next, Reach(pace, dt);
        ghost var whole := Advance(sqrt, pace, dt, route);
        hide Horizontal2, IsSqrt, Toward;
        while remaining > 0.0 && next < |route.waypoints|
          invariant whole == Walk(sqrt, route.waypoints, pace.radius, cursor, next, remaining, heading)
            && route == before
          decreases |route.waypoints| - next,
                    if remaining > 0.0 && next < |route.waypoints|
                      && Horizontal2(cursor, route.waypoints[next]) != 0.0 then 1 else 0
        {
          var waypoint := route.waypoints[next];
          var distance := Distance(sqrt, cursor, waypoint);
          DistanceFacts(sqrt, cursor, waypoint);
          ArrivalFacts(sqrt, cursor, waypoint);
          if distance <= pace.radius {
            next := next + 1;
            continue;
          }
          var step := if remaining <= distance then remaining else distance;
          cursor := Toward(cursor, waypoint, distance, step);
          remaining := remaining - step;
          heading := Offset(cursor, waypoint);
        }
        route := route.(cursor := cursor, next := next);
        if next >= |route.waypoints| {
          route := route.(complete := true);
        }
      }
      if route.complete && !holding {
        route := route.(sinceComplete := route.sinceComplete + 1);
      }
    }

    method PlaceMembers(sqrt: real -> real, members: seq<AgentState>, heading: (real, real))
      requires IsSqrt(sqrt) && Distinct(members) && |members| == |memberOffsets|
      modifies members
      ensures Squad(members) == PlacedAll(sqrt, old(Squad(members)), route.cursor, memberOffsets, heading)
    {
      hide Slot, IsSqrt;
      ghost var squad := Squad(members);
      for k := 0 to |members|
        invariant forall i :: 0 <= i < k ==>
          members[i].Snapshot() == Settled(squad[i].agent, Slot(sqrt, route.cursor, memberOffsets[i], heading))
        invariant forall i :: k <= i < |members| ==> members[i].Snapshot() == squad[i].agent
      {
        var member, slot := members[k], Slot(sqrt, route.cursor, memberOffsets[k], heading);
        member.place := member.place.(inSquad := true, slot := slot);
      }
    }

    /** Casualties dropped, the agents of those left. */
    method Muster(agents: seq<AgentState>, index: AgentIndex) returns (members: seq<AgentState>)
      requires Valid() && index.Indexes(agents)
      modifies this`memberIds, this`memberOffsets
      ensures Valid() && |members| == |memberIds| && Distinct(members)
      ensures Posts(memberIds, memberOffsets) == Living(old(Posts(memberIds, memberOffsets)), Ids(agents))
      ensures forall i :: 0 <= i < |members| ==> members[i] in agents && members[i].netId == memberIds[i]
    {
      DropCasualties(agents, index);
      AllFound(memberIds, memberOffsets, old(Posts(memberIds, memberOffsets)), Ids(agents));
      members := Resolve(agents, index);
    }

    /** Holding, alerts, the walk and the slots, in that order. */
    method Drive(sqrt: real -> real, dt: real, members: seq<AgentState>)
      requires Valid() && IsSqrt(sqrt) && Distinct(members) && |members| == |memberIds|
      modifies this`holding, this`route, members
      ensures Valid() && holding == Holding(old(Squad(members)))
      ensures route == RouteTick(sqrt, pace, dt, holding, old(route))
      ensures Squad(members) == PlacedAll(sqrt, PassAlert(old(Squad(members))), route.cursor, memberOffsets,
                                          Facing(sqrt, pace, dt, holding, old(route)))
    {
      var alerting := Hold(members);
      TurnSquad(members, alerting);
      var heading := WalkRoute(sqrt, dt);
      hide *;
      PlaceMembers(sqrt, members, heading);
    }

    /** One tick of the squad, for those of it that are left; nobody else is touched. */
    method Tick(sqrt: real -> real, dt: real, agents: seq<AgentState>, index: AgentIndex)
        returns (members: seq<AgentState>)
      requires Valid() && IsSqrt(sqrt) && index.Indexes(agents)
      modifies this, agents
      ensures Valid() && |members| == |memberIds|
      ensures Posts(memberIds, memberOffsets) == Living(old(Posts(memberIds, memberOffsets)), Ids(agents))
      ensures forall i :: 0 <= i < |members| ==> members[i] in agents && members[i].netId == memberIds[i]
      ensures holding == Holding(old(Squad(members)))
      ensures route == RouteTick(sqrt, pace, dt, holding, old(route))
      ensures Squad(members) == PlacedAll(sqrt, PassAlert(old(Squad(members))), route.cursor, memberOffsets,
                                          Facing(sqrt, pace, dt, holding, old(route)))
      ensures forall a :: a in agents && a !in members ==> unchanged(a)
    {
      hide *;
      members := Muster(agents, index);
      InAgents(members, agents);
      Drive(sqrt, dt, members);
    }
  }

  // ----- all squads ----------------------------------------------------------------------------------

  function Without(groups: seq<PatrolGroup>, id: nat): (r: seq<PatrolGroup>)
    ensures forall g :: g in r ==> g in groups && g.id != id
    ensures forall g :: g in groups && g.id != id ==> g in r
  {
    if groups == [] then []
    else
      var last := |groups| - 1;
      assert groups == groups[..last] + [groups[last]];
      Without(groups[..last], id) + if groups[last].id == id then [] else [groups[last]]
  }

  ghost predicate DistinctGroups(groups: seq<PatrolGroup>) {
    forall i, j :: 0 <= i < j < |groups| ==> groups[i].id != groups[j].id
  }

  lemma {:induction false} WithoutDistinct(groups: seq<PatrolGroup>, id: nat)
    requires DistinctGroups(groups)
    ensures DistinctGroups(Without(groups, id))
  {
    if groups != [] {
      var last := |groups| - 1;
      WithoutDistinct(groups[..last], id);
      var front := Without(groups[..last], id);
      forall i | 0 <= i < |front| ensures front[i].id != groups[last].id {
        assert front[i] in groups[..last];
      }
    }
  }

  lemma NoneWithout(id: nat)
    ensures Without([], id) == []
  {
  }

  lemma WithoutNext(groups: seq<PatrolGroup>, k: nat, id: nat)
    requires k < |groups|
    ensures Without(groups[..k + 1], id) == Without(groups[..k], id) + if groups[k].id == id then [] else [groups[k]]
  {
    assert groups[..k + 1][..k] == groups[..k];
  }

  class PatrolGroupRuntime {
    var groups: seq<PatrolGroup>
    var nextId: nat

    ghost predicate Valid()
      reads this
    {
      && nextId > 0 && (forall g :: g in groups ==> 0 < g.id < nextId)
      && DistinctGroups(groups)
    }

    constructor ()
      ensures Valid() && groups == []
    {
      groups, nextId := [], 1;
    }

    /** A squad with somewhere to walk and someone in it gets an id no squad has had; any
        other request gets 0 and changes nothing. */
    method CreateGroup(definition: nat, waypoints: seq<Vec3>, origin: Vec3, ids: seq<nat>, offsets: seq<Vec3>,
                       pace: Pace)
      returns (id: nat)
      requires Valid()
      modifies this
      ensures Valid()
      ensures id == 0 <==> waypoints == [] || ids == [] || |ids| != |offsets|
      ensures id == 0 ==> groups == old(groups) && nextId == old(nextId)
      ensures id != 0 ==>
        && id == old(nextId) == nextId - 1
        && |groups| == |old(groups)| + 1 && groups[..|old(groups)|] == old(groups)
        && var g := groups[|old(groups)|];
           g.id == id && g.definition == definition && g.route == Route(waypoints, 0, origin, false, 0)
           && g.memberIds == ids && g.memberOffsets == offsets && !g.holding && g.pace == pace
    {
      if waypoints == [] || ids == [] || |ids| != |offsets| {
        return 0;
      }
      var group := new PatrolGroup(nextId, definition, waypoints, origin, ids, offsets, pace);
      nextId := nextId + 1;
      groups := groups + [group];
      return group.id;
    }

    method RemoveGroup(id: nat)
      requires Valid()
      modifies this`groups
      ensures Valid() && groups == Without(old(groups), id)
    {
      WithoutDistinct(groups, id);
      hide DistinctGroups, Without;
      var kept, all: seq<PatrolGroup> := [], groups;
      NoneWithout(id);
      for k := 0 to |all|
        invariant kept == Without(all[..k], id) && groups == all
      {
        WithoutNext(all, k, id);
        if all[k].id != id {
          kept := kept + [all[k]];
        }
      }
      assert all[..|all|] == all;
      groups := kept;
    }
  }

  lemma AllFound(ids: seq<nat>, offsets: seq<Vec3>, before: seq<Post>, alive: set<nat>)
    requires |ids| == |offsets| && Posts(ids, offsets) == Living(before, alive)
    ensures forall m :: m in ids ==> m in alive
  {
    forall m | m in ids ensures m in alive {
      var i :| 0 <= i < |ids| && ids[i] == m;
      assert Posts(ids, offsets)[i] in Posts(ids, offsets);
    }
  }

  lemma InAgents(members: seq<AgentState>, agents: seq<AgentState>)
    requires forall i :: 0 <= i < |members| ==> members[i] in agents
    ensures forall m :: m in members ==> m in agents
  {
  }

  /** Everyone given the slot its own place in the formation has. */
  ghost function PlacedAll(sqrt: real -> real, squad: seq<Member>, cursor: Vec3, offsets: seq<Vec3>,
                           heading: (real, real)): (r: seq<Member>)
    requires IsSqrt(sqrt) && |offsets| == |squad|
    ensures |r| == |squad|
  {
    seq(|squad|, i requires 0 <= i < |squad| =>
      squad[i].(agent := Settled(squad[i].agent, Slot(sqrt, cursor, offsets[i], heading))))
  }

  /** Where the formation faces after a tick. */
  ghost function Facing(sqrt: real -> real, pace: Pace, dt: real, holding: bool, r: Route): (real, real)
    requires IsSqrt(sqrt) && pace.radius >= 0.0
  {
    if holding || r.complete then FirstHeading(r) else Advance(sqrt, pace, dt, r).heading
  }

  lemma FirstIs(squad: seq<Member>, i: nat)
    requires i <= |squad| && (i < |squad| ==> Alerting(squad[i].agent))
    requires forall k :: 0 <= k < i ==> !Alerting(squad[k].agent)
    ensures FirstAlerting(squad) == i
  {
    hide Alerting;
  }

  lemma TurnedAll(squad: seq<Member>, turned: seq<Member>, source: Sentry)
    requires FirstAlerting(squad) < |squad| && source == squad[FirstAlerting(squad)].agent.sentry && |turned| == |squad|
    requires forall i :: 0 <= i < |squad| ==> turned[i] == Turned(squad[i], source)
    ensures turned == PassAlert(squad)
  {
    hide Turned, FirstAlerting;
  }
}
