/** What a squad's tick comes to, told of positions and states: where each place of the formation
    is, which way it faces, who turns with whom, and what keeps the squad standing. */
module SquadLaws {
  import opened Geometry
  import opened Engagement
  import opened SquadQuiescence
  import opened SquadRoute
  import opened SquadRuntime

  // ----- the formation ------------------------------------------------------------------------

  /** `d` from the cursor: the place's forward distance along the heading, its sideways one to the
      right of that, +Z of a heading along +X, and its height as it was. With no heading to speak
      of, as authored. */
  predicate Lies(d: Vec3, offset: Vec3, hx: real, hz: real, length: real) {
    && d.y == offset.y
    && if length > 0.0001 then d.x * hx + d.z * hz == offset.x * length && hx * d.z - hz * d.x == offset.z * length
       else d.x == offset.x && d.z == offset.z
  }

  lemma SlotLies(sqrt: real -> real, cursor: Vec3, offset: Vec3, heading: (real, real))
    requires IsSqrt(sqrt)
    ensures var s := Slot(sqrt, cursor, offset, heading);
      Lies(Vec3(s.x - cursor.x, s.y - cursor.y, s.z - cursor.z), offset, heading.0, heading.1,
           Length(sqrt, heading))
  {
    hide *;
    Displaced(sqrt, cursor, offset, heading);
    TurnedLies(sqrt, offset, heading, Length(sqrt, heading));
  }

  function Length(sqrt: real -> real, v: (real, real)): real {
    sqrt(Square(v.0) + Square(v.1))
  }

  lemma Displaced(sqrt: real -> real, cursor: Vec3, offset: Vec3, heading: (real, real))
    requires IsSqrt(sqrt)
    ensures var s := Slot(sqrt, cursor, offset, heading);
      Vec3(s.x - cursor.x, s.y - cursor.y, s.z - cursor.z) == RotateIntoHeading(sqrt, offset, heading)
  {
    hide RotateIntoHeading;
  }

  lemma TurnedLies(sqrt: real -> real, offset: Vec3, heading: (real, real), length: real)
    requires IsSqrt(sqrt) && length == Length(sqrt, heading)
    ensures Lies(RotateIntoHeading(sqrt, offset, heading), offset, heading.0, heading.1, length)
  {
    hide *;
    LengthIs(sqrt, heading, length);
    RotatedIs(sqrt, offset, heading, length);
    RotatedLies(RotateIntoHeading(sqrt, offset, heading), offset, heading.0, heading.1, length);
  }

  lemma LengthIs(sqrt: real -> real, v: (real, real), length: real)
    requires IsSqrt(sqrt) && length == Length(sqrt, v)
    ensures length >= 0.0
    ensures length == sqrt(Square(v.0) + Square(v.1)) && length * length == v.0 * v.0 + v.1 * v.1
  {
  }

  /** As the turn has it, the two parts of the heading over its length. */
  predicate Turns(d: Vec3, offset: Vec3, hx: real, hz: real, length: real) {
    && d.y == offset.y
    && if length > 0.0001 then
         && d.x == offset.x * (hx / length) - offset.z * (hz / length)
         && d.z == offset.x * (hz / length) + offset.z * (hx / length)
       else d == offset
  }

  lemma RotatedIs(sqrt: real -> real, offset: Vec3, heading: (real, real), length: real)
    requires IsSqrt(sqrt) && length == sqrt(Square(heading.0) + Square(heading.1))
    ensures Turns(RotateIntoHeading(sqrt, offset, heading), offset, heading.0, heading.1, length)
  {
    hide Square, IsSqrt;
  }

  lemma RotatedLies(d: Vec3, offset: Vec3, hx: real, hz: real, length: real)
    requires length * length == hx * hx + hz * hz && Turns(d, offset, hx, hz, length)
    ensures Lies(d, offset, hx, hz, length)
  {
    if length > 0.0001 {
      LiesAlong(offset.x, offset.z, hx, hz, length, d.x, d.z);
    }
  }

  lemma LiesAlong(ox: real, oz: real, hx: real, hz: real, length: real, dx: real, dz: real)
    requires length > 0.0 && length * length == hx * hx + hz * hz
    requires dx == ox * (hx / length) - oz * (hz / length) && dz == ox * (hz / length) + oz * (hx / length)
    ensures dx * hx + dz * hz == ox * length && hx * dz - hz * dx == oz * length
  {
    var x, z := hx / length, hz / length;
    Along(hx, hz, length, x, z);
    Laid(ox, oz, hx, hz, length, x, z, dx, dz);
  }

  lemma Along(hx: real, hz: real, length: real, x: real, z: real)
    requires length > 0.0 && length * length == hx * hx + hz * hz && x == hx / length && z == hz / length
    ensures x * hx + z * hz == length && x * hz == z * hx
  {
    assert x * length == hx && z * length == hz;
    assert (x * hx + z * hz) * length == (x * length) * hx + (z * length) * hz;
    Cancel(x * hx + z * hz, length, length);
    assert (x * hz) * length == (x * length) * hz && (z * hx) * length == (z * length) * hx;
    Cancel(x * hz, z * hx, length);
  }

  lemma Laid(ox: real, oz: real, hx: real, hz: real, length: real, x: real, z: real, dx: real, dz: real)
    requires x * hx + z * hz == length && x * hz == z * hx
    requires dx == ox * x - oz * z && dz == ox * z + oz * x
    ensures dx * hx + dz * hz == ox * length
    ensures hx * dz - hz * dx == oz * length
  {
    assert (ox * x - oz * z) * hx == ox * (x * hx) - oz * (z * hx);
    assert (ox * z + oz * x) * hz == ox * (z * hz) + oz * (x * hz);
    assert hx * (ox * z + oz * x) == ox * (z * hx) + oz * (x * hx);
    assert hz * (ox * x - oz * z) == ox * (x * hz) - oz * (z * hz);
    assert ox * (x * hx) + ox * (z * hz) == ox * (x * hx + z * hz);
    assert oz * (x * hx) + oz * (z * hz) == oz * (x * hx + z * hz);
  }

  // ----- which way it faces -----------------------------------------------------------------------

  /** From where the cursor ends, straight at one of the waypoints of the walk: the one it goes on
      to, unless it stops exactly on one or runs out of route. */
  predicate AtWaypoint(waypoints: seq<Vec3>, cursor: Vec3, k: int, heading: (real, real)) {
    0 <= k < |waypoints| && heading == (waypoints[k].x - cursor.x, waypoints[k].z - cursor.z)
  }

  lemma {:induction false} WalkFaces(sqrt: real -> real, waypoints: seq<Vec3>, radius: real, cursor: Vec3, next: nat,
                                     left: real, heading: (real, real), first: nat) returns (k: nat)
    requires IsSqrt(sqrt) && radius >= 0.0 && first <= next <= |waypoints|
    requires AtWaypoint(waypoints, cursor, first, heading)
    ensures var w := Walk(sqrt, waypoints, radius, cursor, next, left, heading);
      && first <= k <= w.next <= |waypoints| && AtWaypoint(waypoints, w.cursor, k, w.heading)
      && (w.heading == (0.0, 0.0) || k == w.next || (k == first && w.heading == heading && w.cursor == cursor))
      && (w.cursor != cursor ==> exists j :: next <= j < |waypoints| && w.cursor.y == waypoints[j].y)
    decreases |waypoints| - next, if next < |waypoints| && Horizontal2(cursor, waypoints[next]) != 0.0 then 1 else 0
  {
    hide Horizontal2, IsSqrt;
    k := first;
    if left > 0.0 && next < |waypoints| {
      var waypoint := waypoints[next];
      var distance := Distance(sqrt, cursor, waypoint);
      DistanceFacts(sqrt, cursor, waypoint);
      ArrivalFacts(sqrt, cursor, waypoint);
      hide Toward, Distance;
      if distance <= radius {
        k := WalkFaces(sqrt, waypoints, radius, cursor, next + 1, left, heading, first);
      } else if left < distance {
        StepsAt(cursor, waypoint, distance, left);
        k := next;
      } else {
        k := WalkFaces(sqrt, waypoints, radius, waypoint, next, left - distance, (0.0, 0.0), next);
      }
    }
  }

  lemma StepsAt(p: Vec3, q: Vec3, distance: real, step: real)
    requires distance != 0.0
    ensures Toward(p, q, distance, step).y == q.y
  {
  }

  /** Standing, or with no route left, it faces the next waypoint, or along +X. */
  lemma StandingFaces(sqrt: real -> real, pace: Pace, dt: real, holding: bool, r: Route)
    requires IsSqrt(sqrt) && pace.radius >= 0.0 && (holding || r.complete)
    ensures var f := Facing(sqrt, pace, dt, holding, r);
      if r.next < |r.waypoints| then AtWaypoint(r.waypoints, r.cursor, r.next, f) else f == (1.0, 0.0)
  {
  }

  /** On the move it faces where it is going. */
  lemma MarchFaces(sqrt: real -> real, pace: Pace, dt: real, r: Route) returns (k: nat)
    requires IsSqrt(sqrt) && pace.radius >= 0.0 && !r.complete && r.next < |r.waypoints|
    ensures var f, q := Facing(sqrt, pace, dt, false, r), RouteTick(sqrt, pace, dt, false, r);
      && r.next <= k <= q.next && AtWaypoint(r.waypoints, q.cursor, k, f)
      && (q.cursor != r.cursor ==> f == (0.0, 0.0) || k == q.next)
  {
    k := WalkFaces(sqrt, r.waypoints, pace.radius, r.cursor, r.next, Reach(pace, dt), FirstHeading(r), r.next);
  }

  // ----- how far it goes ------------------------------------------------------------------------------

  /** Short of the waypoint it walks at it goes exactly what its pace allows, straight at it. */
  lemma MarchStep(sqrt: real -> real, pace: Pace, dt: real, r: Route, distance: real)
    requires IsSqrt(sqrt) && pace.radius >= 0.0 && !r.complete && r.next < |r.waypoints|
    requires distance >= 0.0 && distance * distance == Horizontal2(r.cursor, r.waypoints[r.next])
    requires pace.radius < distance && 0.0 < pace.speed * dt < distance
    ensures var q, step := RouteTick(sqrt, pace, dt, false, r), pace.speed * dt;
      && Horizontal2(r.cursor, q.cursor) == step * step && q.cursor.y == r.waypoints[r.next].y
      && Horizontal2(q.cursor, r.waypoints[r.next]) == (distance - step) * (distance - step)
      && q == r.(cursor := q.cursor)
  {
    hide *;
    var waypoint, step := r.waypoints[r.next], pace.speed * dt;
    DistanceFacts(sqrt, r.cursor, waypoint);
    SquareOrder(Distance(sqrt, r.cursor, waypoint), distance);
    StepTaken(sqrt, pace, dt, r, distance, step);
    StepsAt(r.cursor, waypoint, distance, step);
    TowardScales(r.cursor, waypoint, distance, step);
  }

  lemma StepTaken(sqrt: real -> real, pace: Pace, dt: real, r: Route, distance: real, step: real)
    requires IsSqrt(sqrt) && pace.radius >= 0.0 && !r.complete && r.next < |r.waypoints|
    requires distance == Distance(sqrt, r.cursor, r.waypoints[r.next]) && step == pace.speed * dt
    requires pace.radius < distance && 0.0 < step < distance
    ensures RouteTick(sqrt, pace, dt, false, r) == r.(cursor := Toward(r.cursor, r.waypoints[r.next], distance, step))
  {
    hide Horizontal2, IsSqrt, Distance, Toward;
  }

  /** A waypoint it is near enough to is passed, and one it reaches is walked on from with what is left. */
  lemma WalkOn(sqrt: real -> real, waypoints: seq<Vec3>, radius: real, cursor: Vec3, next: nat, left: real,
               heading: (real, real), distance: real)
    requires IsSqrt(sqrt) && radius >= 0.0 && left > 0.0 && next < |waypoints|
    requires distance >= 0.0 && distance * distance == Horizontal2(cursor, waypoints[next])
    ensures distance <= radius ==>
      Walk(sqrt, waypoints, radius, cursor, next, left, heading)
        == Walk(sqrt, waypoints, radius, cursor, next + 1, left, heading)
    ensures radius < distance <= left ==>
      Walk(sqrt, waypoints, radius, cursor, next, left, heading)
        == Walk(sqrt, waypoints, radius, waypoints[next], next, left - distance, (0.0, 0.0))
  {
    hide *;
    DistanceFacts(sqrt, cursor, waypoints[next]);
    SquareOrder(Distance(sqrt, cursor, waypoints[next]), distance);
    WalkedOn(sqrt, waypoints, radius, cursor, next, left, heading, distance);
  }

  lemma WalkedOn(sqrt: real -> real, waypoints: seq<Vec3>, radius: real, cursor: Vec3, next: nat, left: real,
                 heading: (real, real), distance: real)
    requires IsSqrt(sqrt) && radius >= 0.0 && left > 0.0 && next < |waypoints|
    requires distance == Distance(sqrt, cursor, waypoints[next])
    ensures distance <= radius ==>
      Walk(sqrt, waypoints, radius, cursor, next, left, heading)
        == Walk(sqrt, waypoints, radius, cursor, next + 1, left, heading)
    ensures radius < distance <= left ==>
      Walk(sqrt, waypoints, radius, cursor, next, left, heading)
        == Walk(sqrt, waypoints, radius, waypoints[next], next, left - distance, (0.0, 0.0))
  {
    ArrivalFacts(sqrt, cursor, waypoints[next]);
    hide Toward, Distance, Horizontal2, IsSqrt;
  }

  /** A squad that holds stays. Any other is done once it is past its last waypoint, and counts its ticks from
      then on. */
  lemma RouteEnds(sqrt: real -> real, pace: Pace, dt: real, r: Route)
    requires IsSqrt(sqrt) && pace.radius >= 0.0
    ensures RouteTick(sqrt, pace, dt, true, r) == r
    ensures var q := RouteTick(sqrt, pace, dt, false, r);
      && (q.complete <==> r.complete || q.next >= |r.waypoints|) && q.waypoints == r.waypoints
      && q.sinceComplete == r.sinceComplete + (if q.complete then 1 else 0)
      && (r.complete ==> q.cursor == r.cursor && q.next == r.next)
  {
    hide Walk;
  }

  /** It is let go once it has been done for long enough, or the nearest player is too far off; with nobody on the
      server nobody is far off, and while it holds neither counts. */
  lemma RetiresExactly(r: Route, holding: bool, linger: nat, despawn: real, d: real)
    ensures Retires(r, holding, linger, despawn, PlayerAt(d))
      <==> !holding && ((r.complete && linger <= r.sinceComplete) || 0.0 < despawn < d)
    ensures Retires(r, holding, linger, despawn, Nobody) <==> !holding && r.complete && linger <= r.sinceComplete
  {
  }

  /** Everyone has the slot of its own place, in the squad from then on, and is otherwise as it was. */
  lemma PlacedExactly(sqrt: real -> real, squad: seq<Member>, cursor: Vec3, offsets: seq<Vec3>, heading: (real, real),
                      length: real, i: nat)
    requires IsSqrt(sqrt) && |offsets| == |squad| && i < |squad|
    requires length >= 0.0 && length * length == heading.0 * heading.0 + heading.1 * heading.1
    ensures var a, p := squad[i].agent, PlacedAll(sqrt, squad, cursor, offsets, heading)[i].agent;
      && PlacedAll(sqrt, squad, cursor, offsets, heading)[i].id == squad[i].id
      && p == a.(place := a.place.(inSquad := true, slot := p.place.slot))
      && Lies(Vec3(p.place.slot.x - cursor.x, p.place.slot.y - cursor.y, p.place.slot.z - cursor.z), offsets[i],
              heading.0, heading.1, length)
  {
    LengthIs(sqrt, heading, Length(sqrt, heading));
    hide Slot, Lies, Length, IsSqrt;
    SlotLies(sqrt, cursor, offsets[i], heading);
    SquareOrder(length, Length(sqrt, heading));
  }

  // ----- who stands and who turns -----------------------------------------------------------------------

  /** In a fight of its own: alert, after someone, or looking for them. */
  predicate Fights(a: Agent) {
    var s := a.sentry.state;
    s == Alert || s == Chasing || s == Attack || s == Search
  }

  /** It has something to look at, and not on a squad-mate's word alone. */
  predicate Credible(a: Agent) {
    Fights(a) && a.sentry.hasAttention && (a.sentry.target != 0 || !a.sentry.bySquad)
  }

  /** Idle, and no more than three metres from its slot. */
  predicate Stands(a: Agent) {
    && a.sentry.state == Idle && a.place.inSquad
    && (a.place.slot.x - a.position.x) * (a.place.slot.x - a.position.x)
         + (a.place.slot.z - a.position.z) * (a.place.slot.z - a.position.z) <= 9.0
  }

  lemma HoldsExactly(squad: seq<Member>)
    ensures Holding(squad) <==> exists i :: 0 <= i < |squad| && Fights(squad[i].agent)
  {
  }

  /** The first credible member turns everyone who stands in formation, where they stand, to
      where it looks and for as long as its own alert would be; nobody else changes, and without
      one nobody does. */
  lemma TurnsExactly(squad: seq<Member>, i: nat)
    requires i < |squad|
    ensures var a, p := squad[i].agent, PassAlert(squad)[i].agent;
      && PassAlert(squad)[i].id == squad[i].id
      && if (exists k :: 0 <= k < |squad| && Credible(squad[k].agent)) && Stands(a) then
           exists k :: 0 <= k < |squad| && Credible(squad[k].agent)
             && (forall j :: 0 <= j < k ==> !Credible(squad[j].agent)) && TurnedTo(a, p, squad[k].agent.sentry)
         else p == a
  {
    StandsIs(squad[i].agent);
    hide Alerting, InFormation, Stands;
    forall k | 0 <= k < |squad| ensures Credible(squad[k].agent) <==> Alerting(squad[k].agent) {
      CredibleIs(squad[k].agent);
    }
    hide Credible;
    var first := FirstAlerting(squad);
    if first < |squad| && InFormation(squad[i].agent) {
      assert TurnedTo(squad[i].agent, PassAlert(squad)[i].agent, squad[first].agent.sentry);
    }
  }

  predicate TurnedTo(a: Agent, p: Agent, source: Sentry) {
    && p.sentry == a.sentry.(state := Alert, stateTicks := 0, lostTicks := 0, bySquad := true,
                             byDamage := source.byDamage, hasAttention := true, attention := source.attention)
    && p == a.(sentry := p.sentry, place := a.place.(anchor := a.position))
  }

  lemma CredibleIs(a: Agent)
    ensures Credible(a) <==> Alerting(a)
  {
  }

  lemma StandsIs(a: Agent)
    ensures Stands(a) <==> InFormation(a)
  {
    HorizontalIs(a.position, a.place.slot, a.place.slot.x - a.position.x, a.place.slot.z - a.position.z);
    hide Horizontal2;
  }
}
