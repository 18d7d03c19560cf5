/** A squad's walk along its route: how far one tick moves the cursor, and that a
    squad nothing stops comes to the end of its route and is retired. */
module SquadRoute {
  import opened Geometry

  datatype Pace = Pace(speed: real, radius: real)

  datatype Route = Route(waypoints: seq<Vec3>, next: nat, cursor: Vec3, complete: bool, sinceComplete: nat)

  /** Where the inner loop of one tick stops: the cursor, the waypoint it is heading
      for, what is left of the tick's distance, and the last leg's direction. */
  datatype Walked = Walked(cursor: Vec3, next: nat, left: real, heading: (real, real))

  /** A step of `step` along the line from `p` to `q`, at the height of `q`. */
  function Toward(p: Vec3, q: Vec3, distance: real, step: real): Vec3
    requires distance != 0.0
  {
    Vec3(p.x + (q.x - p.x) / distance * step, q.y, p.z + (q.z - p.z) / distance * step)
  }

  function Offset(p: Vec3, q: Vec3): (real, real) {
    (q.x - p.x, q.z - p.z)
  }

  function Walk(sqrt: real -> real, waypoints: seq<Vec3>, radius: real,
                cursor: Vec3, next: nat, left: real, heading: (real, real)): Walked
    requires IsSqrt(sqrt) && radius >= 0.0
    decreases |waypoints| - next, if next < |waypoints| && Horizontal2(cursor, waypoints[next]) != 0.0 then 1 else 0
  {
    if left <= 0.0 || next >= |waypoints| then Walked(cursor, next, left, heading)
    else
      var waypoint := waypoints[next];
      var distance := Distance(sqrt, cursor, waypoint);
      if distance <= radius then Walk(sqrt, waypoints, radius, cursor, next + 1, left, heading)
      else if left < distance then
        var moved := Toward(cursor, waypoint, distance, left);
        Walked(moved, next, 0.0, Offset(moved, waypoint))
      else
        ArrivalFacts(sqrt, cursor, waypoint);
        Walk(sqrt, waypoints, radius, Toward(cursor, waypoint, distance, distance), next, left - distance, (0.0, 0.0))
  }

  lemma ArrivalFacts(sqrt: real -> real, p: Vec3, q: Vec3)
    requires IsSqrt(sqrt)
    ensures var d := Distance(sqrt, p, q); d > 0.0 ==> Toward(p, q, d, d) == q && Horizontal2(p, q) != 0.0
    ensures Horizontal2(q, q) == 0.0
  {
    DistanceFacts(sqrt, p, q);
  }

  /** What is left of the route: the way to the next waypoint and every leg after. */
  function RouteLeft(sqrt: real -> real, waypoints: seq<Vec3>, cursor: Vec3, next: nat): real
    decreases |waypoints| - next
  {
    if next >= |waypoints| then 0.0
    else Distance(sqrt, cursor, waypoints[next]) + RouteLeft(sqrt, waypoints, waypoints[next], next + 1)
  }

  lemma {:induction false} RouteLeftPositive(sqrt: real -> real, waypoints: seq<Vec3>, cursor: Vec3, next: nat)
    requires IsSqrt(sqrt)
    ensures RouteLeft(sqrt, waypoints, cursor, next) >= 0.0
    decreases |waypoints| - next
  {
    if next < |waypoints| {
      DistanceFacts(sqrt, cursor, waypoints[next]);
      RouteLeftPositive(sqrt, waypoints, waypoints[next], next + 1);
    }
  }

  /** A step short of the waypoint covers exactly its own length, straight at it. */
  lemma TowardFacts(sqrt: real -> real, p: Vec3, q: Vec3, step: real)
    requires IsSqrt(sqrt) && 0.0 <= step < Distance(sqrt, p, q)
    ensures var d := Distance(sqrt, p, q); var m := Toward(p, q, d, step);
      Distance(sqrt, p, m) == step && Distance(sqrt, m, q) == d - step
  {
    var d := Distance(sqrt, p, q);
    var m := Toward(p, q, d, step);
    hide Toward, Horizontal2;
    DistanceFacts(sqrt, p, q);
    TowardScales(p, q, d, step);
    DistanceFacts(sqrt, p, m);
    DistanceFacts(sqrt, m, q);
    hide IsSqrt, Distance;
    SquareOrder(Distance(sqrt, p, m), step);
    SquareOrder(Distance(sqrt, m, q), d - step);
  }

  lemma TowardScales(p: Vec3, q: Vec3, d: real, step: real)
    requires d > 0.0 && Horizontal2(p, q) == d * d
    ensures var m := Toward(p, q, d, step);
      Horizontal2(p, m) == step * step && Horizontal2(m, q) == (d - step) * (d - step)
  {
    hide *;
    var m, k := Toward(p, q, d, step), step / d;
    TowardIs(p, q, d, step, k);
    Part(d, step, k);
    ScaledWay(p, q, p, m, d, k, step);
    ScaledWay(p, q, m, q, d, 1.0 - k, d - step);
  }

  lemma Part(d: real, step: real, k: real)
    requires d > 0.0 && k == step / d
    ensures step == d * k && d - step == d * (1.0 - k)
  {
    Complement(d, k);
  }

  /** A way that is a multiple of another is as many times as long. */
  lemma ScaledWay(p: Vec3, q: Vec3, from: Vec3, to: Vec3, d: real, k: real, length: real)
    requires Horizontal2(p, q) == d * d && length == d * k
    requires to.x - from.x == (q.x - p.x) * k && to.z - from.z == (q.z - p.z) * k
    ensures Horizontal2(from, to) == length * length
  {
    hide *;
    HorizontalIs(p, q, q.x - p.x, q.z - p.z);
    HorizontalIs(from, to, to.x - from.x, to.z - from.z);
    ScaledLength(q.x - p.x, q.z - p.z, k, d, to.x - from.x, to.z - from.z, length);
  }

  lemma TowardIs(p: Vec3, q: Vec3, d: real, step: real, k: real)
    requires d > 0.0 && k == step / d
    ensures var m := Toward(p, q, d, step);
      && m.x - p.x == (q.x - p.x) * k && q.x - m.x == (q.x - p.x) * (1.0 - k)
      && m.z - p.z == (q.z - p.z) * k && q.z - m.z == (q.z - p.z) * (1.0 - k)
  {
    Quotient(q.x - p.x, d, step, k);
    Quotient(q.z - p.z, d, step, k);
    Complement(q.x - p.x, k);
    Complement(q.z - p.z, k);
  }

  lemma Quotient(a: real, d: real, s: real, k: real)
    requires d > 0.0 && k == s / d
    ensures a / d * s == a * k && k * d == s
  {
    var u := a / d;
    assert u * d == a && k * d == s;
    assert u * (k * d) == (u * d) * k;
  }

  lemma Complement(a: real, k: real)
    ensures a * (1.0 - k) == a - a * k && (1.0 - k) * a == a - k * a
  {
  }

  lemma ScaledLength(x: real, z: real, k: real, d: real, ux: real, uz: real, r: real)
    requires x * x + z * z == d * d && k * d == r && ux == x * k && uz == z * k
    ensures ux * ux + uz * uz == r * r
  {
    Regroup(x, k, x, k);
    Regroup(z, k, z, k);
    Regroup(k, d, k, d);
    var xx, zz, dd, kk := x * x, z * z, d * d, k * k;
    assert xx * kk + zz * kk == dd * kk;
  }

  /** The inner loop spends no more than it was given, never moves the cursor further
      than it spent, and shortens what is left of the route by at least that. */
  lemma {:induction false} WalkFacts(sqrt: real -> real, waypoints: seq<Vec3>, radius: real,
                                     cursor: Vec3, next: nat, left: real, heading: (real, real))
    requires IsSqrt(sqrt) && radius >= 0.0 && left >= 0.0
    ensures var w := Walk(sqrt, waypoints, radius, cursor, next, left, heading);
      && next <= w.next && 0.0 <= w.left <= left
      && (w.left == 0.0 || w.next >= |waypoints|)
      && Distance(sqrt, cursor, w.cursor) <= left - w.left
      && RouteLeft(sqrt, waypoints, w.cursor, w.next) <= RouteLeft(sqrt, waypoints, cursor, next) - (left - w.left)
    decreases |waypoints| - next, if next < |waypoints| && Horizontal2(cursor, waypoints[next]) != 0.0 then 1 else 0
  {
    hide IsSqrt, Toward, Horizontal2;
    if left <= 0.0 || next >= |waypoints| {
      SamePlace(sqrt, cursor);
    } else {
      var waypoint := waypoints[next];
      var distance := Distance(sqrt, cursor, waypoint);
      DistanceFacts(sqrt, cursor, waypoint);
      if distance <= radius {
        if next + 1 < |waypoints| {
          TriangleInequality(sqrt, cursor, waypoint, waypoints[next + 1]);
        }
        WalkFacts(sqrt, waypoints, radius, cursor, next + 1, left, heading);
      } else if left < distance {
        TowardFacts(sqrt, cursor, waypoint, left);
      } else {
        ArrivalFacts(sqrt, cursor, waypoint);
        SamePlace(sqrt, waypoint);
        WalkFacts(sqrt, waypoints, radius, waypoint, next, left - distance, (0.0, 0.0));
        TriangleInequality(sqrt, cursor, waypoint,
          Walk(sqrt, waypoints, radius, waypoint, next, left - distance, (0.0, 0.0)).cursor);
      }
    }
  }

  lemma SamePlace(sqrt: real -> real, p: Vec3)
    requires IsSqrt(sqrt)
    ensures Distance(sqrt, p, p) == 0.0
  {
    DistanceFacts(sqrt, p, p);
  }

  // ----- ticks ---------------------------------------------------------------------

  function FirstHeading(r: Route): (real, real) {
    if r.next < |r.waypoints| then Offset(r.cursor, r.waypoints[r.next]) else (1.0, 0.0)
  }

  /** The distance one tick has to give away. */
  function Reach(pace: Pace, dt: real): real {
    pace.speed * dt
  }

  function Advance(sqrt: real -> real, pace: Pace, dt: real, r: Route): Walked
    requires IsSqrt(sqrt) && pace.radius >= 0.0
  {
    Walk(sqrt, r.waypoints, pace.radius, r.cursor, r.next, Reach(pace, dt), FirstHeading(r))
  }

  function RouteTick(sqrt: real -> real, pace: Pace, dt: real, holding: bool, r: Route): Route
    requires IsSqrt(sqrt) && pace.radius >= 0.0
  {
    if holding then r
    else
      var walked := if r.complete then Walked(r.cursor, r.next, 0.0, FirstHeading(r)) else Advance(sqrt, pace, dt, r);
      var complete := r.complete || walked.next >= |r.waypoints|;
      r.(cursor := walked.cursor, next := walked.next, complete := complete,
         sinceComplete := if complete then r.sinceComplete + 1 else r.sinceComplete)
  }

  /** The route after one tick per flag, held wherever the flag says so. */
  function RouteRun(sqrt: real -> real, pace: Pace, dt: real, r: Route, holds: seq<bool>): Route
    requires IsSqrt(sqrt) && pace.radius >= 0.0
  {
    if holds == [] then r
    else RouteTick(sqrt, pace, dt, holds[|holds| - 1], RouteRun(sqrt, pace, dt, r, holds[..|holds| - 1]))
  }

  function FreeTicks(holds: seq<bool>): nat {
    if holds == [] then 0 else FreeTicks(holds[..|holds| - 1]) + if holds[|holds| - 1] then 0 else 1
  }

  function TicksNeeded(sqrt: real -> real, pace: Pace, dt: real, r: Route): int
    requires Reach(pace, dt) > 0.0
  {
    (RouteLeft(sqrt, r.waypoints, r.cursor, r.next) / (Reach(pace, dt))).Floor + 1
  }

  lemma TickFacts(sqrt: real -> real, pace: Pace, dt: real, holding: bool, r: Route)
    requires IsSqrt(sqrt) && pace.radius >= 0.0 && Reach(pace, dt) >= 0.0
    ensures RouteTick(sqrt, pace, dt, holding, r).waypoints == r.waypoints
    ensures r.complete ==> RouteTick(sqrt, pace, dt, holding, r).complete
    ensures Distance(sqrt, r.cursor, RouteTick(sqrt, pace, dt, holding, r).cursor)
      <= if holding then 0.0 else Reach(pace, dt)
    ensures var p := RouteTick(sqrt, pace, dt, holding, r);
      !p.complete && !holding ==>
        RouteLeft(sqrt, p.waypoints, p.cursor, p.next)
          <= RouteLeft(sqrt, r.waypoints, r.cursor, r.next) - Reach(pace, dt)
  {
    hide Horizontal2, Toward, Reach;
    SamePlace(sqrt, r.cursor);
    if !holding && !r.complete {
      WalkFacts(sqrt, r.waypoints, pace.radius, r.cursor, r.next, Reach(pace, dt), FirstHeading(r));
      var w := Walk(sqrt, r.waypoints, pace.radius, r.cursor, r.next, Reach(pace, dt), FirstHeading(r));
      assert w == Advance(sqrt, pace, dt, r);
    }
  }

  function Covered(ticks: nat, step: real): real {
    ticks as real * step
  }

  lemma OneMore(n: nat, step: real)
    ensures Covered(0, step) == 0.0 && Covered(n + 1, step) == Covered(n, step) + step
  {
  }

  /** However its fights are spread over the run, the cursor ends no further from
      where it was than the free ticks could carry it. */
  lemma {:induction false} RunCovers(sqrt: real -> real, pace: Pace, dt: real, r: Route, holds: seq<bool>)
    requires IsSqrt(sqrt) && pace.radius >= 0.0 && Reach(pace, dt) >= 0.0
    ensures Distance(sqrt, r.cursor, RouteRun(sqrt, pace, dt, r, holds).cursor)
      <= Covered(FreeTicks(holds), Reach(pace, dt))
  {
    if holds == [] {
      SamePlace(sqrt, r.cursor);
    } else {
      var prior := holds[..|holds| - 1];
      var before := RouteRun(sqrt, pace, dt, r, prior);
      var last := holds[|holds| - 1];
      RunCovers(sqrt, pace, dt, r, prior);
      TickFacts(sqrt, pace, dt, last, before);
      TriangleInequality(sqrt, r.cursor, before.cursor, RouteTick(sqrt, pace, dt, last, before).cursor);
      OneMore(FreeTicks(prior), Reach(pace, dt));
    }
  }

  /** Enough free ticks finish any route, however the holds are spread between them,
      and every free tick after that counts towards retirement. */
  lemma {:induction false} RunFinishes(sqrt: real -> real, pace: Pace, dt: real, r: Route, holds: seq<bool>)
    requires IsSqrt(sqrt) && pace.radius >= 0.0 && Reach(pace, dt) > 0.0
    ensures var p := RouteRun(sqrt, pace, dt, r, holds); var free := FreeTicks(holds);
      && p.waypoints == r.waypoints
      && free + 1 <= p.sinceComplete + TicksNeeded(sqrt, pace, dt, r)
      && (free >= TicksNeeded(sqrt, pace, dt, r) ==> p.complete)
      && (!p.complete ==> RouteLeft(sqrt, p.waypoints, p.cursor, p.next)
                          <= RouteLeft(sqrt, r.waypoints, r.cursor, r.next) - Covered(free, Reach(pace, dt)))
  {
    hide RouteTick, IsSqrt, Covered, Reach;
    OneMore(0, Reach(pace, dt));
    var step := Reach(pace, dt);
    var needed := TicksNeeded(sqrt, pace, dt, r);
    var whole := RouteLeft(sqrt, r.waypoints, r.cursor, r.next);
    RouteLeftPositive(sqrt, r.waypoints, r.cursor, r.next);
    assert whole / step >= 0.0;
    if holds != [] {
      var prior := holds[..|holds| - 1];
      var last := holds[|holds| - 1];
      var before := RouteRun(sqrt, pace, dt, r, prior);
      var after := RouteTick(sqrt, pace, dt, last, before);
      var free := FreeTicks(holds);
      RunFinishes(sqrt, pace, dt, r, prior);
      TickFacts(sqrt, pace, dt, last, before);
      TickCounts(sqrt, pace, dt, last, before);
      if !after.complete {
        RouteLeftPositive(sqrt, after.waypoints, after.cursor, after.next);
        OneMore(FreeTicks(prior), step);
        BelowQuotient(free, step, whole);
        assert free + 1 <= needed;
      }
    }
  }

  lemma TickCounts(sqrt: real -> real, pace: Pace, dt: real, holding: bool, r: Route)
    requires IsSqrt(sqrt) && pace.radius >= 0.0
    ensures var p := RouteTick(sqrt, pace, dt, holding, r);
      && (holding ==> p == r)
      && (!holding ==> p.sinceComplete == r.sinceComplete + if p.complete then 1 else 0)
  {
  }

  lemma BelowQuotient(n: nat, step: real, whole: real)
    requires step > 0.0 && Covered(n, step) <= whole
    ensures n <= (whole / step).Floor
  {
    assert (whole / step) * step == whole;
    ScaleOrder(n as real, whole / step, step);
  }

  // ----- retirement ------------------------------------------------------------------

  datatype Nearest = Nobody | PlayerAt(distance: real)

  /** What the patrol director asks of each squad before it places any. */
  predicate Retires(r: Route, holding: bool, linger: nat, despawnDistance: real, nearest: Nearest) {
    && !holding
    && (|| (r.complete && r.sinceComplete >= linger)
        || (despawnDistance > 0.0 && nearest.PlayerAt? && nearest.distance > despawnDistance))
  }

  /** A squad that has been free for long enough is retired the next time it is not
      holding, players near it or not; one that is holding never is. */
  lemma FinishedSquadsRetire(sqrt: real -> real, pace: Pace, dt: real, r: Route, holds: seq<bool>,
                             holding: bool, linger: nat, despawnDistance: real, nearest: Nearest)
    requires IsSqrt(sqrt) && pace.radius >= 0.0 && Reach(pace, dt) > 0.0
    requires FreeTicks(holds) >= TicksNeeded(sqrt, pace, dt, r) + linger
    ensures Retires(RouteRun(sqrt, pace, dt, r, holds), holding, linger, despawnDistance, nearest) <==> !holding
  {
    RunFinishes(sqrt, pace, dt, r, holds);
  }
}
