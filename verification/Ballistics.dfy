/** Aiming a projectile on the low arc, in exact reals; square roots are a given function. */
module Ballistics {
  import opened Geometry
  import opened Vectors
  import opened Wrappers

  datatype Solution = Solution(direction: Vec3, seconds: real)

  const EPSILON: real := 0.0001
  const TOLERANCE: real := 0.00001

  /** Of a squared length. */
  predicate Negligible(length2: real)
    ensures length2 <= 0.0 ==> Negligible(length2)
  {
    length2 <= EPSILON * EPSILON
  }

  // ----- what aiming is for -----------------------------------------------------------------

  function PositionAt(launch: Vec3, direction: Vec3, speed: real, gravity: Vec3, t: real): Vec3 {
    Add(Add(launch, Scale(direction, speed * t)), Scale(gravity, t * t / 2.0))
  }

  predicate Hits(launch: Vec3, target: Vec3, speed: real, gravity: Vec3, direction: Vec3, t: real) {
    t > 0.0 && PositionAt(launch, direction, speed, gravity, t) == target
  }

  predicate Unit(direction: Vec3) {
    Dot(direction, direction) == 1.0
  }

  // ----- the solver ------------------------------------------------------------------------------

  function Max(a: real, b: real): real {
    if a >= b then a else b
  }

  function Abs(a: real): real {
    if a >= 0.0 then a else -a
  }

  function Up(gravity: Vec3, g: real): Vec3
    requires g > 0.0
  {
    Scale(gravity, -1.0 / g)
  }

  /** What gravity takes off the arc, times it: `g (g x^2 + 2 h v^2)`. */
  function Drop(g: real, x2: real, h: real, v: real): real {
    g * Climb(g, x2, h, v)
  }

  function Climb(g: real, x2: real, h: real, v: real): real {
    g * x2 + 2.0 * h * (v * v)
  }

  function Discriminant(g: real, x2: real, h: real, v: real): real {
    (v * v) * (v * v) - Drop(g, x2, h, v)
  }

  function Timely(shot: Solution, limit: real): Option<Solution> {
    if shot.seconds <= 0.0 || shot.seconds > limit then None else Some(shot)
  }

  function VerticalSolution(sqrt: real -> real, up: Vec3, h: real, v: real, g: real, limit: real): Option<Solution>
    requires IsSqrt(sqrt) && v > 0.0 && g > 0.0
  {
    if Abs(h) <= EPSILON then None
    else
      var discriminant := v * v - 2.0 * g * h;
      if discriminant < 0.0 then None
      else
        Timely(Solution(Scale(up, Way(h)), VerticalSeconds(h, v, g, sqrt(discriminant))), limit)
  }

  function Way(h: real): real {
    if h > 0.0 then 1.0 else -1.0
  }

  function VerticalSeconds(h: real, v: real, g: real, root: real): real
    requires v > 0.0 && g > 0.0 && root >= 0.0
  {
    if h > 0.0 then (2.0 * h) / (v + root) else (-v + root) / g
  }

  function Tangent(g: real, x: real, h: real, v: real, root: real): real
    requires x > 0.0 && v > 0.0 && root >= 0.0
  {
    NonNegative(v);
    assert x * (v * v + root) > 0.0;
    Climb(g, x * x, h, v) / (x * (v * v + root))
  }

  function Cosine(sqrt: real -> real, tangent: real): (c: real)
    requires IsSqrt(sqrt)
    ensures c > 0.0 && (c * c) * (1.0 + tangent * tangent) == 1.0
  {
    NonNegative(tangent);
    var s := sqrt(1.0 + tangent * tangent);
    assert s * s == 1.0 + tangent * tangent && s >= 0.0;
    assert s > 0.0;
    CosineLaw(s);
    1.0 / s
  }

  lemma CosineLaw(s: real)
    requires s > 0.0
    ensures 1.0 / s > 0.0 && ((1.0 / s) * (1.0 / s)) * (s * s) == 1.0
  {
    var c := 1.0 / s;
    assert c * s == 1.0;
    Regroup(c, c, s, s);
  }

  /** What rounding may have taken from a discriminant of this scale. */
  function Slack(scale: real): (s: real)
    ensures scale > 0.0 ==> s > 0.0
  {
    TOLERANCE * scale
  }

  function Arc(sqrt: real -> real, up: Vec3, horizontal: Vec3, x: real, h: real, v: real, g: real, root: real): Solution
    requires IsSqrt(sqrt) && v > 0.0 && x > 0.0 && root >= 0.0
  {
    var tangent := Tangent(g, x, h, v, root);
    Pointed(up, horizontal, x, v, tangent, Cosine(sqrt, tangent))
  }

  function Pointed(up: Vec3, horizontal: Vec3, x: real, v: real, tangent: real, cosine: real): Solution
    requires x > 0.0 && v > 0.0 && cosine > 0.0
  {
    assert v * cosine > 0.0;
    Solution(Add(Scale(Scale(horizontal, 1.0 / x), cosine), Scale(up, tangent * cosine)), x / (v * cosine))
  }

  function ArcSolution(sqrt: real -> real, up: Vec3, horizontal: Vec3, x: real, h: real, v: real, g: real,
                       limit: real): Option<Solution>
    requires IsSqrt(sqrt) && v > 0.0 && g > 0.0 && x > 0.0
  {
    var discriminant := Discriminant(g, x * x, h, v);
    var scale := Max(1.0, Max((v * v) * (v * v), Abs(Drop(g, x * x, h, v))));
    if discriminant < -Slack(scale) then None
    else
      Timely(Arc(sqrt, up, horizontal, x, h, v, g, sqrt(Max(0.0, discriminant))), limit)
  }

  function Magnitude(sqrt: real -> real, a: Vec3): real {
    sqrt(Dot(a, a))
  }

  lemma MagnitudeFacts(sqrt: real -> real, a: Vec3)
    requires IsSqrt(sqrt)
    ensures Magnitude(sqrt, a) >= 0.0 && Magnitude(sqrt, a) * Magnitude(sqrt, a) == Dot(a, a)
    ensures Dot(a, a) > 0.0 ==> Magnitude(sqrt, a) > 0.0
  {
    DotSelf(a);
    NonNegative(Magnitude(sqrt, a));
  }

  function SolveLow(sqrt: real -> real, launch: Vec3, target: Vec3, speed: real, gravity: Vec3,
                    limit: real): Option<Solution>
    requires IsSqrt(sqrt)
  {
    if speed <= 0.0 || limit <= 0.0 || Negligible(Dot(gravity, gravity)) then None
    else
      MagnitudeFacts(sqrt, gravity);
      var g := Magnitude(sqrt, gravity);
      var up := Up(gravity, g);
      var displacement := Subtract(target, launch);
      var h := Dot(displacement, up);
      var horizontal := Subtract(displacement, Scale(up, h));
      if Negligible(Dot(horizontal, horizontal)) then VerticalSolution(sqrt, up, h, speed, g, limit)
      else
        MagnitudeFacts(sqrt, horizontal);
        ArcSolution(sqrt, up, horizontal, Magnitude(sqrt, horizontal), h, speed, g, limit)
  }

  // ----- how any shot arrives -------------------------------------------------------------------------

  /** A setting: gravity of strength `g` against a unit `up`, and a target `h` above and
      `horizontal` away. */
  ghost predicate Setting(launch: Vec3, target: Vec3, gravity: Vec3, g: real, up: Vec3, h: real, horizontal: Vec3) {
    && g > 0.0 && gravity == Scale(up, -g) && Dot(up, up) == 1.0
    && Dot(horizontal, up) == 0.0
    && Subtract(target, launch) == Add(horizontal, Scale(up, h))
  }

  /** Where a shot must be pointed to arrive at `t`: along this, `v t` long. */
  function Needed(horizontal: Vec3, up: Vec3, h: real, g: real, t: real): Vec3 {
    Add(horizontal, Scale(up, Lift(h, g, t)))
  }

  /** How high to point so as to be `h` up after falling for `t`. */
  function Lift(h: real, g: real, t: real): real {
    h + g * (t * t / 2.0)
  }

  lemma HitsMeans(launch: Vec3, target: Vec3, v: real, gravity: Vec3, g: real, up: Vec3, h: real, horizontal: Vec3,
                  direction: Vec3, t: real)
    requires Setting(launch, target, gravity, g, up, h, horizontal) && t > 0.0
    ensures Hits(launch, target, v, gravity, direction, t)
      <==> Scale(direction, v * t) == Needed(horizontal, up, h, g, t)
  {
    hide Add, Scale, Subtract, Dot;
    var k := t * t / 2.0;
    var fall := g * k;
    ScaleTwice(up, -g, k, -fall);
    ScaleSum(up, h, fall, Lift(h, g, t));
    Rearranged(launch, target, Scale(direction, v * t), Scale(up, fall), Add(horizontal, Scale(up, h)));
    ScaleNegated(up, fall);
    AddAssoc(horizontal, Scale(up, h), Scale(up, fall));
  }

  lemma ScaleNegated(a: Vec3, k: real)
    ensures Scale(a, -k) == Subtract(ZERO, Scale(a, k))
  {
  }

  lemma AddAssoc(a: Vec3, b: Vec3, c: Vec3)
    ensures Add(Add(a, b), c) == Add(a, Add(b, c))
  {
  }

  lemma Rearranged(launch: Vec3, target: Vec3, path: Vec3, fall: Vec3, way: Vec3)
    requires Subtract(target, launch) == way
    ensures Add(Add(launch, path), Subtract(ZERO, fall)) == target <==> path == Add(way, fall)
  {
  }

  /** How late in its arc a shot is at `t`: half of `g^2 t^2`, less `v^2 - g h`. */
  function Lateness(g: real, h: real, v: real, t: real): real {
    g * g * (t * t) / 2.0 - (v * v - g * h)
  }

  /** A shot that arrives at `t` solves the flight equation; that makes the discriminant a
      square, and bounds how soon it can be. */
  lemma ArrivalBound(launch: Vec3, target: Vec3, v: real, gravity: Vec3, g: real, up: Vec3, h: real, horizontal: Vec3,
                     direction: Vec3, t: real)
    requires Setting(launch, target, gravity, g, up, h, horizontal) && v > 0.0
    requires Unit(direction) && Hits(launch, target, v, gravity, direction, t)
    ensures var x2 := Dot(horizontal, horizontal);
      Discriminant(g, x2, h, v) == Square(Lateness(g, h, v, t))
  {
    var s, lift := v * t, Lift(h, g, t);
    HitsMeans(launch, target, v, gravity, g, up, h, horizontal, direction, t);
    var needed := Needed(horizontal, up, h, g, t);
    DotScale(direction, s, direction);
    DotScale(direction, s, Scale(direction, s));
    assert Dot(needed, needed) == s * s;
    NeededLength(horizontal, up, lift, lift * lift);
    FlightEquation(Dot(horizontal, horizontal), h, g, v, t);
  }

  lemma NeededLength(horizontal: Vec3, up: Vec3, lift: real, lift2: real)
    requires Dot(horizontal, up) == 0.0 && Dot(up, up) == 1.0 && lift2 == lift * lift
    ensures var needed := Add(horizontal, Scale(up, lift));
      Dot(needed, needed) == Dot(horizontal, horizontal) + lift2
  {
    hide Dot, Add, Scale;
    var needed := Add(horizontal, Scale(up, lift));
    DotAdd(horizontal, Scale(up, lift), needed);
    DotAdd(horizontal, Scale(up, lift), horizontal);
    DotAdd(horizontal, Scale(up, lift), Scale(up, lift));
    DotScale(up, lift, horizontal);
    DotScale(up, lift, up);
    DotScale(up, lift, Scale(up, lift));
    DotScale(horizontal, 1.0, up);
  }

  lemma FlightEquation(x2: real, h: real, g: real, v: real, t: real)
    requires var lift := h + g * (t * t / 2.0); x2 + lift * lift == (v * t) * (v * t)
    ensures Discriminant(g, x2, h, v) == Square(Lateness(g, h, v, t))
  {
    var k, v2, c := t * t / 2.0, v * v, v * v - g * h;
    var lift, gg := h + g * k, g * g;
    assert (v * t) * (v * t) == v2 * (2.0 * k) by { Regroup(v, t, v, t); }
    // The equation times g^2, as a square completed.
    var w := gg * k - c;
    assert g * g * (t * t) / 2.0 == gg * k;
    assert g * lift == g * h + gg * k by { assert g * (g * k) == gg * k; }
    assert (g * lift) * (g * lift) == gg * (lift * lift) by { Regroup(g, lift, g, lift); }
    assert gg * (x2 + lift * lift) == gg * (v2 * (2.0 * k));
    assert gg * (v2 * (2.0 * k)) == 2.0 * (v2 * (gg * k)) by { Swap(gg, v2, k); }
    Complete(gg * k, g * h, v2);
    assert Drop(g, x2, h, v) == gg * x2 + 2.0 * ((g * h) * v2) by { DropIs(g, x2, h, v2, v); }
  }

  lemma Swap(a: real, b: real, k: real)
    ensures a * (b * (2.0 * k)) == 2.0 * (b * (a * k))
  {
    assert b * (2.0 * k) == 2.0 * (b * k);
    assert a * (2.0 * (b * k)) == 2.0 * (a * (b * k));
    assert a * (b * k) == b * (a * k);
  }

  lemma Complete(q: real, p: real, v2: real)
    ensures (q - (v2 - p)) * (q - (v2 - p)) == (p + q) * (p + q) - 2.0 * (v2 * q) - 2.0 * (p * v2) + v2 * v2
  {
  }

  lemma DropIs(g: real, x2: real, h: real, v2: real, v: real)
    requires v2 == v * v
    ensures Drop(g, x2, h, v) == g * g * x2 + 2.0 * ((g * h) * v2)
  {
    assert g * (g * x2 + 2.0 * h * v2) == g * (g * x2) + g * (2.0 * h * v2);
    assert g * (2.0 * h * v2) == 2.0 * ((g * h) * v2);
  }

  /** How soon a shot can be: half of `g^2 t^2` is no less than `v^2 - g h` less the root. */
  predicate NoSooner(g: real, h: real, v: real, root: real, t: real) {
    Lateness(g, h, v, t) >= -root
  }

  lemma RootBound(w: real, root: real)
    requires root >= 0.0 && Square(w) == Square(root)
    ensures w >= -root
  {
    if w < -root {
      SquareOrder(root, -w);
    }
  }

  lemma NoneSooner(launch: Vec3, target: Vec3, v: real, gravity: Vec3, g: real, up: Vec3, h: real, horizontal: Vec3,
                   root: real, direction: Vec3, t: real)
    requires Setting(launch, target, gravity, g, up, h, horizontal) && v > 0.0 && root >= 0.0
    requires Square(root) == Discriminant(g, Dot(horizontal, horizontal), h, v)
    requires Unit(direction) && Hits(launch, target, v, gravity, direction, t)
    ensures NoSooner(g, h, v, root, t)
  {
    ArrivalBound(launch, target, v, gravity, g, up, h, horizontal, direction, t);
    hide Discriminant, Setting, Hits, Dot, Unit, Lateness, Square;
    RootBound(Lateness(g, h, v, t), root);
  }

  /** A negative discriminant: no direction reaches the target, ever. */
  lemma OutOfReach(launch: Vec3, target: Vec3, v: real, gravity: Vec3, g: real, up: Vec3, h: real, horizontal: Vec3,
                   direction: Vec3, t: real)
    requires Setting(launch, target, gravity, g, up, h, horizontal) && v > 0.0
    requires Discriminant(g, Dot(horizontal, horizontal), h, v) < 0.0
    ensures !(Unit(direction) && Hits(launch, target, v, gravity, direction, t))
  {
    hide Discriminant, Setting, Hits, Dot, Unit;
    if Unit(direction) && Hits(launch, target, v, gravity, direction, t) {
      ArrivalBound(launch, target, v, gravity, g, up, h, horizontal, direction, t);
    }
  }

  /** An arrival time as soon as the bound allows is the soonest of all. */
  lemma Soonest(g: real, h: real, v: real, root: real, t: real, s: real)
    requires g > 0.0 && t > 0.0 && s > 0.0
    requires Lateness(g, h, v, t) == -root && NoSooner(g, h, v, root, s)
    ensures t <= s
  {
    NonNegative(g);
    SquareOrder(t, s);
    ScaleOrder(t * t, s * s, g * g);
    assert (t * t) * (g * g) == g * g * (t * t) && (s * s) * (g * g) == g * g * (s * s);
  }

  // ----- the solver's shot arrives ----------------------------------------------------------------------

  lemma RationalTangent(g: real, x: real, h: real, v: real, root: real, tangent: real)
    requires x > 0.0 && v > 0.0 && root >= 0.0 && Square(root) == Discriminant(g, x * x, h, v)
    requires tangent == Tangent(g, x, h, v, root)
    ensures g * (x * tangent) == v * v - root
  {
    NonNegative(v);
    var v2 := v * v;
    var sum, climb := v2 + root, Climb(g, x * x, h, v);
    assert x * sum > 0.0;
    assert tangent * (x * sum) == climb;
    var rise := x * tangent;
    assert tangent * (x * sum) == rise * sum by { assert tangent * (x * sum) == (tangent * x) * sum; }
    assert g * climb == (v2 - root) * sum by { assert (v2 - root) * sum == v2 * v2 - root * root; }
    assert g * (rise * sum) == (g * rise) * sum;
    Cancel(g * rise, v2 - root, sum);
  }

  /** With the cosine, the flight covers the distance, in the soonest time. */
  lemma ArcTime(g: real, x: real, h: real, v: real, root: real, tangent: real, cosine: real, t: real)
    requires g > 0.0 && x > 0.0 && v > 0.0 && root >= 0.0 && Square(root) == Discriminant(g, x * x, h, v)
    requires g * (x * tangent) == v * v - root
    requires cosine > 0.0 && (cosine * cosine) * (1.0 + tangent * tangent) == 1.0
    requires (v * t) * cosine == x
    ensures Lateness(g, h, v, t) == -root
    ensures x * tangent == Lift(h, g, t)
  {
    var k, c2, v2, spread := v * t, cosine * cosine, v * v, 1.0 + tangent * tangent;
    NonNegative(v);
    assert k * k == (x * x) * spread by {
      assert (k * k) * c2 == x * x by { Regroup(k, cosine, k, cosine); }
      assert (k * k) * (c2 * spread) == ((k * k) * c2) * spread;
    }
    assert k * k == v2 * (t * t) by { Regroup(v, t, v, t); }
    var gg, rise := g * g, g * (x * tangent);
    assert gg * ((x * x) * spread) == gg * (x * x) + rise * rise by { Spread(g, x, tangent); }
    DropIs(g, x * x, h, v2, v);
    assert rise * rise == v2 * v2 - 2.0 * (v2 * root) + root * root;
    assert gg * (v2 * (t * t)) == 2.0 * (v2 * (v2 - g * h - root));
    assert gg * (v2 * (t * t)) == (gg * (t * t)) * v2;
    Cancel(gg * (t * t), 2.0 * (v2 - g * h - root), v2);
    var half := t * t / 2.0;
    assert g * (h + g * half) == g * h + gg * half;
    assert gg * half == gg * (t * t) / 2.0;
    assert (x * tangent) * g == (h + g * half) * g;
    Cancel(x * tangent, h + g * half, g);
  }

  lemma Spread(g: real, x: real, tangent: real)
    ensures (g * g) * ((x * x) * (1.0 + tangent * tangent))
      == (g * g) * (x * x) + (g * (x * tangent)) * (g * (x * tangent))
  {
    var rise := x * tangent;
    assert (x * x) * (tangent * tangent) == rise * rise by { Regroup(x, x, tangent, tangent); }
    assert (x * x) * (1.0 + tangent * tangent) == x * x + rise * rise;
    assert (g * g) * (rise * rise) == (g * rise) * (g * rise) by { Regroup(g, g, rise, rise); }
  }

  /** The direction is a unit one, and its path is the one the arrival needs. */
  lemma ArcDirection(horizontal: Vec3, up: Vec3, x: real, v: real, tangent: real, cosine: real, length: real,
                     rise: real)
    requires x > 0.0 && rise == x * tangent && x * x == Dot(horizontal, horizontal) && Dot(up, up) == 1.0
      && Dot(horizontal, up) == 0.0
    requires (cosine * cosine) * (1.0 + tangent * tangent) == 1.0 && length * cosine == x
    requires v > 0.0 && cosine > 0.0
    ensures var direction := Pointed(up, horizontal, x, v, tangent, cosine).direction;
      && Unit(direction)
      && Scale(direction, length) == Add(horizontal, Scale(up, rise))
  {
    var inverse := 1.0 / x;
    assert inverse * x == 1.0;
    var along := Scale(Scale(horizontal, inverse), cosine);
    var m := inverse * cosine;
    ScaleTwice(horizontal, inverse, cosine, m);
    hide Dot, Add, Scale;
    DotScale(horizontal, m, up);
    assert m * x == (inverse * x) * cosine == cosine;
    ScaledLength(horizontal, m, x, cosine);
    assert (tangent * cosine) * (tangent * cosine) == (tangent * tangent) * (cosine * cosine)
      by { Regroup(tangent, cosine, tangent, cosine); }
    NeededLength(along, up, tangent * cosine, (tangent * tangent) * (cosine * cosine));
    ScaleAdd(along, Scale(up, tangent * cosine), length);
    assert m * length == 1.0 by { assert m * length == inverse * (length * cosine); }
    assert (tangent * cosine) * length == x * tangent
      by { assert (tangent * cosine) * length == tangent * (length * cosine); }
    ScaleTwice(horizontal, m, length, 1.0);
    ScaleTwice(up, tangent * cosine, length, rise);
    ScaleOne(horizontal);
  }

  lemma ScaledLength(a: Vec3, k: real, length: real, scaled: real)
    requires Dot(a, a) == length * length && k * length == scaled
    ensures Dot(Scale(a, k), Scale(a, k)) == scaled * scaled
  {
    DotScale(a, k, a);
    DotScale(a, k, Scale(a, k));
    Regroup(k, length, k, length);
    assert k * (k * (length * length)) == (k * k) * (length * length);
  }

  lemma ScaleOne(a: Vec3)
    ensures Scale(a, 1.0) == a
  {
  }

  // ----- the setting the solver works out -----------------------------------------------------------------

  ghost function Height(sqrt: real -> real, launch: Vec3, target: Vec3, gravity: Vec3): real
    requires Magnitude(sqrt, gravity) > 0.0
  {
    Dot(Subtract(target, launch), Up(gravity, Magnitude(sqrt, gravity)))
  }

  ghost function Across(sqrt: real -> real, launch: Vec3, target: Vec3, gravity: Vec3): Vec3
    requires Magnitude(sqrt, gravity) > 0.0
  {
    Subtract(Subtract(target, launch),
      Scale(Up(gravity, Magnitude(sqrt, gravity)), Height(sqrt, launch, target, gravity)))
  }

  lemma SettingHolds(sqrt: real -> real, launch: Vec3, target: Vec3, gravity: Vec3)
    requires IsSqrt(sqrt) && Dot(gravity, gravity) > 0.0
    ensures var g := Magnitude(sqrt, gravity);
      g > 0.0 && Setting(launch, target, gravity, g, Up(gravity, g),
        Height(sqrt, launch, target, gravity), Across(sqrt, launch, target, gravity))
  {
    MagnitudeFacts(sqrt, gravity);
    var g := Magnitude(sqrt, gravity);
    var up, way := Up(gravity, g), Subtract(target, launch);
    var h := Dot(way, up);
    UpIsUnit(gravity, g);
    hide Dot, Add, Scale, Subtract, Magnitude, Up;
    DotSubtract(way, Scale(up, h), up);
    DotScale(up, h, up);
    Restored(way, Scale(up, h));
  }

  lemma Restored(way: Vec3, part: Vec3)
    ensures Add(Subtract(way, part), part) == way
  {
  }

  lemma UpIsUnit(gravity: Vec3, g: real)
    requires g > 0.0 && g * g == Dot(gravity, gravity)
    ensures Dot(Up(gravity, g), Up(gravity, g)) == 1.0 && gravity == Scale(Up(gravity, g), -g)
  {
    var k := -1.0 / g;
    assert k * g == -1.0;
    hide Dot, Scale;
    var up := Up(gravity, g);
    DotScale(gravity, k, gravity);
    DotScale(gravity, k, up);
    assert Dot(up, up) == k * (k * (g * g));
    assert k * (k * (g * g)) == (k * g) * (k * g);
    ScaleTwice(gravity, k, -g, 1.0);
    ScaleOne(gravity);
  }

  // ----- what the solver gives -------------------------------------------------------------------------------

  /** The shot hits, and nothing at that speed hits sooner. */
  ghost predicate SoonestHit(launch: Vec3, target: Vec3, v: real, gravity: Vec3, shot: Solution) {
    && Unit(shot.direction) && Hits(launch, target, v, gravity, shot.direction, shot.seconds)
    && forall direction, t: real :: Unit(direction) && Hits(launch, target, v, gravity, direction, t) ==>
      shot.seconds <= t
  }

  ghost predicate NobodyReaches(launch: Vec3, target: Vec3, v: real, gravity: Vec3, limit: real) {
    forall direction, t: real :: Unit(direction) && t <= limit ==> !Hits(launch, target, v, gravity, direction, t)
  }

  /** Any unit shot that takes the time the bound allows is the soonest. */
  lemma SoonestShot(launch: Vec3, target: Vec3, v: real, gravity: Vec3, g: real, up: Vec3, h: real, horizontal: Vec3,
                    root: real, direction: Vec3, t: real, length: real)
    requires Setting(launch, target, gravity, g, up, h, horizontal) && v > 0.0 && root >= 0.0
    requires Square(root) == Discriminant(g, Dot(horizontal, horizontal), h, v)
    requires Unit(direction) && t > 0.0 && length == v * t
    requires Scale(direction, length) == Needed(horizontal, up, h, g, t)
    requires Lateness(g, h, v, t) == -root
    ensures SoonestHit(launch, target, v, gravity, Solution(direction, t))
  {
    HitsMeans(launch, target, v, gravity, g, up, h, horizontal, direction, t);
    hide Discriminant, Dot, Unit, Lateness, Square, Scale, Needed, PositionAt, NoSooner;
    forall other, s: real | Unit(other) && Hits(launch, target, v, gravity, other, s) ensures t <= s {
      NoneSooner(launch, target, v, gravity, g, up, h, horizontal, root, other, s);
      Soonest(g, h, v, root, t, s);
    }
  }

  lemma ArcShot(sqrt: real -> real, launch: Vec3, target: Vec3, v: real, gravity: Vec3, g: real, up: Vec3, h: real,
                horizontal: Vec3, x: real, root: real)
    requires IsSqrt(sqrt) && Setting(launch, target, gravity, g, up, h, horizontal) && v > 0.0
    requires x > 0.0 && x * x == Dot(horizontal, horizontal)
    requires root >= 0.0 && Square(root) == Discriminant(g, x * x, h, v)
    ensures var shot := Arc(sqrt, up, horizontal, x, h, v, g, root);
      SoonestHit(launch, target, v, gravity, shot) && shot.seconds > 0.0
  {
    var tangent := Tangent(g, x, h, v, root);
    var cosine := Cosine(sqrt, tangent);
    RationalTangent(g, x, h, v, root, tangent);
    hide Discriminant, Dot, Tangent, Cosine, Setting, SoonestHit, Pointed, Drop;
    ArcHits(launch, target, v, gravity, g, up, h, horizontal, x, root, tangent, cosine);
  }

  /** Where the discriminant is not negative, the arc the solver builds is exact. */
  lemma ArcExact(sqrt: real -> real, launch: Vec3, target: Vec3, v: real, gravity: Vec3, g: real, up: Vec3, h: real,
                 horizontal: Vec3, x: real, limit: real)
    requires IsSqrt(sqrt) && Setting(launch, target, gravity, g, up, h, horizontal) && v > 0.0
    requires x > 0.0 && x * x == Dot(horizontal, horizontal) && Discriminant(g, x * x, h, v) >= 0.0
    ensures Exact(launch, target, v, gravity, limit, ArcSolution(sqrt, up, horizontal, x, h, v, g, limit))
  {
    var root := sqrt(Discriminant(g, x * x, h, v));
    hide Discriminant, Dot, Arc, Setting, SoonestHit, Slack, Drop;
    ArcShot(sqrt, launch, target, v, gravity, g, up, h, horizontal, x, root);
    TimelyExact(launch, target, v, gravity, Arc(sqrt, up, horizontal, x, h, v, g, root), limit);
  }

  /** Either the soonest hit, in time, or nobody hits in time. */
  ghost predicate Exact(launch: Vec3, target: Vec3, v: real, gravity: Vec3, limit: real, shot: Option<Solution>) {
    if shot.Some? then SoonestHit(launch, target, v, gravity, shot.value) && shot.value.seconds <= limit
    else NobodyReaches(launch, target, v, gravity, limit)
  }

  lemma TimelyExact(launch: Vec3, target: Vec3, v: real, gravity: Vec3, shot: Solution, limit: real)
    requires SoonestHit(launch, target, v, gravity, shot) && shot.seconds > 0.0
    ensures Exact(launch, target, v, gravity, limit, Timely(shot, limit))
  {
    hide Unit, PositionAt;
  }

  lemma ArcHits(launch: Vec3, target: Vec3, v: real, gravity: Vec3, g: real, up: Vec3, h: real, horizontal: Vec3,
                x: real, root: real, tangent: real, cosine: real)
    requires Setting(launch, target, gravity, g, up, h, horizontal) && v > 0.0 && root >= 0.0
    requires x > 0.0 && x * x == Dot(horizontal, horizontal) && Square(root) == Discriminant(g, x * x, h, v)
    requires g * (x * tangent) == v * v - root
    requires cosine > 0.0 && (cosine * cosine) * (1.0 + tangent * tangent) == 1.0
    ensures var shot := Pointed(up, horizontal, x, v, tangent, cosine);
      SoonestHit(launch, target, v, gravity, shot) && shot.seconds > 0.0
  {
    var shot := Pointed(up, horizontal, x, v, tangent, cosine);
    var t, direction := shot.seconds, shot.direction;
    assert v * cosine > 0.0;
    ArcSeconds(x, v, cosine, t);
    ArcTime(g, x, h, v, root, tangent, cosine, t);
    hide Discriminant, Dot, Lateness, PositionAt, SoonestHit, Unit, Add, Scale, Drop;
    hide Pointed, Lift;
    ArcDirection(horizontal, up, x, v, tangent, cosine, v * t, Lift(h, g, t));
    SoonestShot(launch, target, v, gravity, g, up, h, horizontal, root, direction, t, v * t);
  }

  lemma ArcSeconds(x: real, v: real, cosine: real, t: real)
    requires x > 0.0 && v > 0.0 && cosine > 0.0 && v * cosine > 0.0 && t == x / (v * cosine)
    ensures t > 0.0 && (v * t) * cosine == x
  {
    assert t * (v * cosine) == x;
    assert (v * t) * cosine == t * (v * cosine);
  }

  // ----- straight up and straight down ------------------------------------------------------------------------

  /** Either way `g t` is the speed lost or gained, and that is the soonest arrival. */
  lemma VerticalTime(h: real, v: real, g: real, root: real)
    requires v > 0.0 && g > 0.0 && root >= 0.0 && h != 0.0 && root * root == v * v - 2.0 * g * h
    ensures var t := VerticalSeconds(h, v, g, root);
      && t > 0.0 && g * t == Way(h) * (v - root)
      && Lift(h, g, t) == Way(h) * (v * t)
      && Lateness(g, h, v, t) == -(v * root)
  {
    hide *;
    var t, way := VerticalSeconds(h, v, g, root), Way(h);
    WayIsASide(h);
    SpeedLost(h, v, g, root);
    VerticalLift(h, v, g, root, t, way);
  }

  lemma WayIsASide(h: real)
    ensures Way(h) == 1.0 || Way(h) == -1.0
  {
  }

  /** In either direction gravity takes off, or adds, exactly the speed that changes. */
  lemma SpeedLost(h: real, v: real, g: real, root: real)
    requires v > 0.0 && g > 0.0 && root >= 0.0 && h != 0.0 && root * root == v * v - 2.0 * g * h
    ensures var t := VerticalSeconds(h, v, g, root);
      t > 0.0 && g * t == Way(h) * (v - root)
  {
    var t := VerticalSeconds(h, v, g, root);
    if h > 0.0 {
      assert t * (v + root) == 2.0 * h;
      assert t > 0.0;
      assert (v - root) * (v + root) == 2.0 * g * h;
      assert (g * t) * (v + root) == g * (t * (v + root));
      Cancel(g * t, v - root, v + root);
    } else {
      assert g * h < 0.0;
      SquareOrder(v, root);
      assert t * g == root - v;
      assert t > 0.0;
    }
  }

  lemma VerticalLift(h: real, v: real, g: real, root: real, t: real, way: real)
    requires g > 0.0 && root * root == v * v - 2.0 * g * h && g * t == way * (v - root) && (way == 1.0 || way == -1.0)
    ensures Lift(h, g, t) == way * (v * t) && Lateness(g, h, v, t) == -(v * root)
  {
    var lost, lift := v - root, Lift(h, g, t);
    LiftTimes(h, g, t);
    Regroup(g, t, g, t);
    LatenessIs(g, h, v, t);
    hide *;
    assert (g * t) * (g * t) == lost * lost;
    assert lost * lost == v * v - 2.0 * (v * root) + root * root;
    assert g * lift == v * lost by { assert v * lost == v * v - v * root; }
    assert lost == way * (g * t);
    assert v * (way * (g * t)) == (way * (v * t)) * g;
    Cancel(lift, way * (v * t), g);
  }

  lemma LatenessIs(g: real, h: real, v: real, t: real)
    ensures Lateness(g, h, v, t) == g * g * (t * t) / 2.0 - (v * v - g * h)
  {
  }

  lemma LiftTimes(h: real, g: real, t: real)
    ensures g * Lift(h, g, t) == g * h + g * g * (t * t) / 2.0
  {
    var half := t * t / 2.0;
    assert g * (h + g * half) == g * h + (g * g) * half;
  }

  lemma VerticalRoot(g: real, h: real, v: real, root: real)
    requires root * root == v * v - 2.0 * g * h
    ensures Square(v * root) == Discriminant(g, 0.0, h, v)
  {
    Regroup(v, root, v, root);
    DropIs(g, 0.0, h, v * v, v);
    assert (v * v) * (root * root) == (v * v) * (v * v) - 2.0 * ((g * h) * (v * v));
  }

  lemma VerticalShot(launch: Vec3, target: Vec3, v: real, gravity: Vec3, g: real, up: Vec3, h: real, horizontal: Vec3,
                     root: real)
    requires Setting(launch, target, gravity, g, up, h, horizontal) && horizontal == ZERO && v > 0.0 && h != 0.0
    requires root >= 0.0 && root * root == v * v - 2.0 * g * h
    ensures var shot := Solution(Scale(up, Way(h)), VerticalSeconds(h, v, g, root));
      SoonestHit(launch, target, v, gravity, shot) && shot.seconds > 0.0
  {
    assert g > 0.0;
    hide *;
    VerticalTime(h, v, g, root);
    VerticalRoot(g, h, v, root);
    SpeedTimesRoot(v, root);
    VerticalPointed(launch, target, v, gravity, g, up, h, horizontal, Way(h), VerticalSeconds(h, v, g, root), v * root);
  }

  lemma SpeedTimesRoot(v: real, root: real)
    requires v > 0.0 && root >= 0.0
    ensures v * root >= 0.0
  {
  }

  lemma VerticalPointed(launch: Vec3, target: Vec3, v: real, gravity: Vec3, g: real, up: Vec3, h: real,
                        horizontal: Vec3, way: real, t: real, w: real)
    requires Setting(launch, target, gravity, g, up, h, horizontal) && horizontal == ZERO && v > 0.0 && t > 0.0
    requires way == Way(h) && Lift(h, g, t) == way * (v * t)
    requires w >= 0.0 && Square(w) == Discriminant(g, 0.0, h, v) && Lateness(g, h, v, t) == -w
    ensures SoonestHit(launch, target, v, gravity, Solution(Scale(up, way), t))
  {
    hide Dot, Scale, Add, Lift, Lateness, Discriminant, Square;
    DotSelf(ZERO);
    EitherWay(up, way);
    AlongUp(up, way, v * t, Lift(h, g, t));
    assert Scale(Scale(up, way), v * t) == Needed(horizontal, up, h, g, t);
    hide *;
    SoonestShot(launch, target, v, gravity, g, up, h, horizontal, w, Scale(up, way), t, v * t);
  }

  lemma EitherWay(up: Vec3, way: real)
    requires Dot(up, up) == 1.0 && (way == 1.0 || way == -1.0)
    ensures Unit(Scale(up, way))
  {
    if way == 1.0 {
      ScaleOne(up);
    } else {
      ScaleNegated(up, 1.0);
    }
  }

  lemma AlongUp(up: Vec3, way: real, length: real, lift: real)
    requires lift == way * length
    ensures Scale(Scale(up, way), length) == Add(ZERO, Scale(up, lift))
  {
    ScaleTwice(up, way, length, lift);
  }

  lemma VerticalExact(sqrt: real -> real, launch: Vec3, target: Vec3, v: real, gravity: Vec3, g: real, up: Vec3,
                      h: real, horizontal: Vec3, limit: real)
    requires IsSqrt(sqrt) && Setting(launch, target, gravity, g, up, h, horizontal) && horizontal == ZERO
    requires v > 0.0 && Abs(h) > EPSILON
    ensures Exact(launch, target, v, gravity, limit, VerticalSolution(sqrt, up, h, v, g, limit))
  {
    var discriminant := v * v - 2.0 * g * h;
    if discriminant >= 0.0 {
      var root := sqrt(discriminant);
      var shot := Solution(Scale(up, Way(h)), VerticalSeconds(h, v, g, root));
      assert VerticalSolution(sqrt, up, h, v, g, limit) == Timely(shot, limit);
      hide *;
      NotAtLevel(h);
      VerticalShot(launch, target, v, gravity, g, up, h, horizontal, root);
      TimelyExact(launch, target, v, gravity, shot, limit);
    } else {
      assert VerticalSolution(sqrt, up, h, v, g, limit) == None;
      assert Dot(horizontal, horizontal) == 0.0;
      NoVerticalReach(g, h, v);
      NobodyBelow(launch, target, v, gravity, g, up, h, horizontal, limit);
    }
  }

  lemma NotAtLevel(h: real)
    requires Abs(h) > EPSILON
    ensures h != 0.0
  {
  }

  lemma NobodyBelow(launch: Vec3, target: Vec3, v: real, gravity: Vec3, g: real, up: Vec3, h: real, horizontal: Vec3,
                    limit: real)
    requires Setting(launch, target, gravity, g, up, h, horizontal) && v > 0.0
    requires Discriminant(g, Dot(horizontal, horizontal), h, v) < 0.0
    ensures NobodyReaches(launch, target, v, gravity, limit)
  {
    hide Setting, Dot, Discriminant, Unit, Hits;
    forall direction, t: real | Unit(direction) && t <= limit ensures !Hits(launch, target, v, gravity, direction, t) {
      OutOfReach(launch, target, v, gravity, g, up, h, horizontal, direction, t);
    }
  }

  lemma NoVerticalReach(g: real, h: real, v: real)
    requires v > 0.0 && v * v - 2.0 * g * h < 0.0
    ensures Discriminant(g, 0.0, h, v) < 0.0
  {
    DropIs(g, 0.0, h, v * v, v);
    var v2, short := v * v, 2.0 * g * h - v * v;
    NonNegative(v);
    assert v2 * short > 0.0;
    assert v2 * short == 2.0 * ((g * h) * v2) - v2 * v2;
  }

  /** A shot straight up or down misses anything off its line. */
  lemma OffLineMissed(launch: Vec3, target: Vec3, v: real, gravity: Vec3, g: real, up: Vec3, h: real, horizontal: Vec3,
                      way: real, t: real)
    requires Setting(launch, target, gravity, g, up, h, horizontal) && horizontal != ZERO
    ensures !Hits(launch, target, v, gravity, Scale(up, way), t)
  {
    if t > 0.0 {
      HitsMeans(launch, target, v, gravity, g, up, h, horizontal, Scale(up, way), t);
      var path, lift := v * t, Lift(h, g, t);
      var length := way * path;
      ScaleTwice(up, way, path, length);
      var needed := Needed(horizontal, up, h, g, t);
      DotAdd(horizontal, Scale(up, lift), up);
      DotScale(up, lift, up);
      DotScale(up, length, up);
      assert Dot(needed, up) == lift && Dot(Scale(up, length), up) == length;
      if Scale(up, length) == needed {
        assert length == lift;
        NothingAdded(horizontal, Scale(up, lift));
      }
    }
  }

  lemma NothingAdded(a: Vec3, b: Vec3)
    ensures Add(a, b) == b ==> a == ZERO
  {
  }

  // ----- the solver, for every input ----------------------------------------------------------------------------

  ghost predicate Aimable(gravity: Vec3, speed: real, limit: real) {
    speed > 0.0 && limit > 0.0 && !Negligible(Dot(gravity, gravity))
  }

  /** The solver is exact, wherever its tolerances do not step in: the target off the line
      of gravity with a discriminant that is not negative, or on it and not too near. Off the
      line with a negative one nobody hits, whatever the solver says. */
  lemma SolverExact(sqrt: real -> real, launch: Vec3, target: Vec3, v: real, gravity: Vec3, limit: real)
    requires IsSqrt(sqrt) && Aimable(gravity, v, limit)
    ensures var g := Magnitude(sqrt, gravity);
      && g > 0.0
      && var h, x2 := Height(sqrt, launch, target, gravity),
        Dot(Across(sqrt, launch, target, gravity), Across(sqrt, launch, target, gravity));
         (!Negligible(x2) && Discriminant(g, x2, h, v) >= 0.0) || (x2 == 0.0 && Abs(h) > EPSILON) ==>
           Exact(launch, target, v, gravity, limit, SolveLow(sqrt, launch, target, v, gravity, limit))
    ensures var g := Magnitude(sqrt, gravity);
      && g > 0.0
      && var h, x2 := Height(sqrt, launch, target, gravity),
        Dot(Across(sqrt, launch, target, gravity), Across(sqrt, launch, target, gravity));
         Discriminant(g, x2, h, v) < 0.0 ==> NobodyReaches(launch, target, v, gravity, limit)
  {
    hide *;
    AimableMeans(gravity, v, limit);
    SettingHolds(sqrt, launch, target, gravity);
    var g := Magnitude(sqrt, gravity);
    var up, h, horizontal := Up(gravity, g), Height(sqrt, launch, target, gravity),
      Across(sqrt, launch, target, gravity);
    Solves(sqrt, launch, target, v, gravity, limit, g, up, h, horizontal);
    SettingExact(sqrt, launch, target, v, gravity, limit, g, up, h, horizontal);
    if Discriminant(g, Dot(horizontal, horizontal), h, v) < 0.0 {
      NobodyBelow(launch, target, v, gravity, g, up, h, horizontal, limit);
    }
  }

  lemma AimableMeans(gravity: Vec3, v: real, limit: real)
    requires Aimable(gravity, v, limit)
    ensures v > 0.0 && limit > 0.0 && Dot(gravity, gravity) > 0.0
  {
  }

  /** Each branch is exact on its own ground. */
  lemma SettingExact(sqrt: real -> real, launch: Vec3, target: Vec3, v: real, gravity: Vec3, limit: real, g: real,
                     up: Vec3, h: real, horizontal: Vec3)
    requires IsSqrt(sqrt) && Setting(launch, target, gravity, g, up, h, horizontal) && v > 0.0 && g > 0.0
    ensures var x2 := Dot(horizontal, horizontal);
      !Negligible(x2) && Discriminant(g, x2, h, v) >= 0.0 && Magnitude(sqrt, horizontal) > 0.0 ==>
        Exact(launch, target, v, gravity, limit,
          ArcSolution(sqrt, up, horizontal, Magnitude(sqrt, horizontal), h, v, g, limit))
    ensures Dot(horizontal, horizontal) == 0.0 && Abs(h) > EPSILON ==>
        Exact(launch, target, v, gravity, limit, VerticalSolution(sqrt, up, h, v, g, limit))
          && Negligible(Dot(horizontal, horizontal))
  {
    hide *;
    var x, x2 := Magnitude(sqrt, horizontal), Dot(horizontal, horizontal);
    DotSelf(horizontal);
    MagnitudeFacts(sqrt, horizontal);
    if x2 == 0.0 {
      if Abs(h) > EPSILON {
        VerticalExact(sqrt, launch, target, v, gravity, g, up, h, horizontal, limit);
      }
    } else if Discriminant(g, x2, h, v) >= 0.0 {
      ArcExact(sqrt, launch, target, v, gravity, g, up, h, horizontal, x, limit);
    }
  }

  /** Which of its two branches the solver takes, and with what. */
  lemma Solves(sqrt: real -> real, launch: Vec3, target: Vec3, v: real, gravity: Vec3, limit: real, g: real, up: Vec3,
               h: real, horizontal: Vec3)
    requires IsSqrt(sqrt) && Aimable(gravity, v, limit) && Magnitude(sqrt, gravity) > 0.0
    requires g == Magnitude(sqrt, gravity) && up == Up(gravity, g)
    requires h == Height(sqrt, launch, target, gravity) && horizontal == Across(sqrt, launch, target, gravity)
    ensures Negligible(Dot(horizontal, horizontal)) ==>
      SolveLow(sqrt, launch, target, v, gravity, limit) == VerticalSolution(sqrt, up, h, v, g, limit)
    ensures !Negligible(Dot(horizontal, horizontal)) ==> Magnitude(sqrt, horizontal) > 0.0
    ensures !Negligible(Dot(horizontal, horizontal)) ==>
      SolveLow(sqrt, launch, target, v, gravity, limit)
        == ArcSolution(sqrt, up, horizontal, Magnitude(sqrt, horizontal), h, v, g, limit)
  {
    MagnitudeFacts(sqrt, horizontal);
    hide VerticalSolution, ArcSolution, Dot, Up, Magnitude;
  }

  /** A shot the solver gives hits its target exactly where the target is off the line of
      gravity by more than the tolerance with a discriminant that is not negative, or is
      right on that line: those are the tolerances' whole cost. */
  lemma GivenShotHits(sqrt: real -> real, launch: Vec3, target: Vec3, v: real, gravity: Vec3, limit: real)
    requires IsSqrt(sqrt) && SolveLow(sqrt, launch, target, v, gravity, limit).Some?
    ensures Aimable(gravity, v, limit)
    ensures var g := Magnitude(sqrt, gravity);
      && g > 0.0
      && var h, x2 := Height(sqrt, launch, target, gravity),
        Dot(Across(sqrt, launch, target, gravity), Across(sqrt, launch, target, gravity));
         var shot := SolveLow(sqrt, launch, target, v, gravity, limit).value;
         (Unit(shot.direction) && Hits(launch, target, v, gravity, shot.direction, shot.seconds)) <==>
           ((!Negligible(x2) && Discriminant(g, x2, h, v) >= 0.0) || x2 == 0.0)
  {
    SettingHolds(sqrt, launch, target, gravity);
    SolverExact(sqrt, launch, target, v, gravity, limit);
    var g := Magnitude(sqrt, gravity);
    var up, h, horizontal := Up(gravity, g), Height(sqrt, launch, target, gravity),
      Across(sqrt, launch, target, gravity);
    var shot := SolveLow(sqrt, launch, target, v, gravity, limit).value;
    var x2 := Dot(horizontal, horizontal);
    DotSelf(horizontal);
    hide Setting, ArcSolution, Dot, Discriminant, Magnitude, Up, Hits, Unit, VerticalSeconds, Scale;
    if Negligible(x2) {
      assert shot.direction == Scale(up, Way(h));
      if x2 != 0.0 {
        OffLineMissed(launch, target, v, gravity, g, up, h, horizontal, Way(h), shot.seconds);
      }
    } else if Discriminant(g, x2, h, v) < 0.0 {
      OutOfReach(launch, target, v, gravity, g, up, h, horizontal, shot.direction, shot.seconds);
    }
  }

  // ----- what the tolerances are ------------------------------------------------------------------

  /** The largest of one, the speed to the fourth and what gravity takes either way. */
  predicate LargestOf(scale: real, fourth: real, drop: real) {
    && scale >= 1.0 && scale >= fourth && scale >= drop && scale >= -drop
    && (scale == 1.0 || scale == fourth || scale == drop || scale == -drop)
  }

  /** How long the arc of a discriminant taken for 0 flies, by the squares of the way it goes. */
  predicate FlatFlight(t: real, v2: real, x2: real, climb: real) {
    t > 0.0 && (t * t * v2 - x2) * (v2 * v2) == climb * climb
  }

  /** Off the line of gravity a discriminant is taken for 0, and the shot given if it is not too long on its way, as
      long as it is short of 0 by no more than a hundred-thousandth of that scale; any lower refuses. */
  lemma ToleranceExactly(sqrt: real -> real, launch: Vec3, target: Vec3, v: real, gravity: Vec3, limit: real,
                         g: real, h: real, x2: real, climb: real, scale: real, t: real)
    requires IsSqrt(sqrt) && Aimable(gravity, v, limit) && g == Magnitude(sqrt, gravity) > 0.0
    requires h == Height(sqrt, launch, target, gravity)
    requires var across := Across(sqrt, launch, target, gravity); x2 == Dot(across, across) > 0.00000001
    requires climb == g * x2 + 2.0 * h * (v * v) && (v * v) * (v * v) <= g * climb
    requires LargestOf(scale, (v * v) * (v * v), g * climb) && FlatFlight(t, v * v, x2, climb)
    ensures var shot := SolveLow(sqrt, launch, target, v, gravity, limit);
      && (shot.Some? <==> -0.00001 * scale <= (v * v) * (v * v) - g * climb && t <= limit)
      && (shot.Some? ==> shot.value.seconds == t)
  {
    hide *;
    var across := Across(sqrt, launch, target, gravity);
    AimableMeans(gravity, v, limit);
    FarOff(x2);
    MagnitudeFacts(sqrt, across);
    Solves(sqrt, launch, target, v, gravity, limit, g, Up(gravity, g), h, across);
    SlackIs(sqrt, Up(gravity, g), across, Magnitude(sqrt, across), h, v, g, limit, x2, climb, scale, t);
  }

  lemma FarOff(x2: real)
    ensures Negligible(x2) <==> x2 <= 0.00000001
  {
  }

  lemma SlackIs(sqrt: real -> real, up: Vec3, horizontal: Vec3, x: real, h: real, v: real, g: real, limit: real,
                x2: real, climb: real, scale: real, t: real)
    requires IsSqrt(sqrt) && v > 0.0 && g > 0.0 && x > 0.0 && x * x == x2
    requires climb == g * x2 + 2.0 * h * (v * v)
    requires LargestOf(scale, (v * v) * (v * v), g * climb) && (v * v) * (v * v) <= g * climb
    requires FlatFlight(t, v * v, x2, climb)
    ensures var d, shot := (v * v) * (v * v) - g * climb, ArcSolution(sqrt, up, horizontal, x, h, v, g, limit);
      && (shot.Some? <==> -0.00001 * scale <= d && t <= limit)
      && (shot.Some? ==> shot.value.seconds == t)
  {
    SlackScale(x2, h, v, g, climb, scale);
    ZeroRoot(sqrt);
    ClimbIs(g, x, h, v);
    FlatSeconds(sqrt, up, horizontal, x, h, v, g, t);
    hide Arc, Discriminant, Drop, Max, Abs, LargestOf, FlatFlight, Climb, IsSqrt;
  }

  lemma SlackScale(x2: real, h: real, v: real, g: real, climb: real, scale: real)
    requires climb == g * x2 + 2.0 * h * (v * v)
    requires LargestOf(scale, (v * v) * (v * v), g * climb) && (v * v) * (v * v) <= g * climb
    ensures Discriminant(g, x2, h, v) == (v * v) * (v * v) - g * climb && Max(0.0, Discriminant(g, x2, h, v)) == 0.0
    ensures Max(1.0, Max((v * v) * (v * v), Abs(Drop(g, x2, h, v)))) == scale
  {
    var fourth, drop := (v * v) * (v * v), g * climb;
    assert Drop(g, x2, h, v) == drop;
    LargestIs(scale, fourth, drop);
  }

  lemma LargestIs(scale: real, fourth: real, drop: real)
    requires LargestOf(scale, fourth, drop)
    ensures Max(1.0, Max(fourth, Abs(drop))) == scale
  {
  }

  lemma ClimbIs(g: real, x: real, h: real, v: real)
    ensures Climb(g, x * x, h, v) == g * (x * x) + 2.0 * h * (v * v)
  {
  }

  lemma ZeroRoot(sqrt: real -> real)
    requires IsSqrt(sqrt)
    ensures sqrt(0.0) == 0.0
  {
    SquareOrder(sqrt(0.0), 0.0);
  }

  lemma FlatSeconds(sqrt: real -> real, up: Vec3, horizontal: Vec3, x: real, h: real, v: real, g: real, t: real)
    requires IsSqrt(sqrt) && v > 0.0 && g > 0.0 && x > 0.0
    requires FlatFlight(t, v * v, x * x, Climb(g, x * x, h, v))
    ensures Arc(sqrt, up, horizontal, x, h, v, g, 0.0).seconds == t
  {
    var climb, v2 := Climb(g, x * x, h, v), v * v;
    NonNegative(v);
    var tangent := Tangent(g, x, h, v, 0.0);
    var cosine := Cosine(sqrt, tangent);
    var s := Arc(sqrt, up, horizontal, x, h, v, g, 0.0).seconds;
    assert v * cosine > 0.0 && s == x / (v * cosine);
    hide *;
    TangentUndone(g, x, h, v);
    FlightSquared(x, v, cosine, tangent, s);
    SameFlight(x, v, tangent, climb, s, t);
  }

  lemma TangentUndone(g: real, x: real, h: real, v: real)
    requires x > 0.0 && v > 0.0
    ensures Tangent(g, x, h, v, 0.0) * (x * (v * v)) == Climb(g, x * x, h, v)
  {
    SquareGrows(0.0, v);
    var den := x * (v * v + 0.0);
    assert den == x * (v * v) && den > 0.0 by { Positive(x, v * v); }
    hide Climb;
    Undone(Climb(g, x * x, h, v), den, Tangent(g, x, h, v, 0.0));
  }

  lemma Positive(a: real, b: real)
    requires a > 0.0 && b > 0.0
    ensures a * (b + 0.0) == a * b > 0.0
  {
  }

  lemma FlightSquared(x: real, v: real, cosine: real, tangent: real, s: real)
    requires x > 0.0 && v > 0.0 && cosine > 0.0 && v * cosine > 0.0 && s == x / (v * cosine)
    requires (cosine * cosine) * (1.0 + tangent * tangent) == 1.0
    ensures s > 0.0 && (s * s) * (v * v) == (x * x) * (1.0 + tangent * tangent)
  {
    hide *;
    ArcSeconds(x, v, cosine, s);
    var way, c2, k := (v * s) * (v * s), cosine * cosine, 1.0 + tangent * tangent;
    Regroup(v * s, cosine, v * s, cosine);
    Regroup(v, s, v, s);
    TimesInverse(way, c2, k);
  }

  lemma TimesInverse(a: real, c: real, k: real)
    requires c * k == 1.0
    ensures a == (a * c) * k
  {
    assert (a * c) * k == a * (c * k);
  }

  lemma SameFlight(x: real, v: real, tangent: real, climb: real, s: real, t: real)
    requires v > 0.0 && s > 0.0 && tangent * (x * (v * v)) == climb && FlatFlight(t, v * v, x * x, climb)
    requires (s * s) * (v * v) == (x * x) * (1.0 + tangent * tangent)
    ensures s == t
  {
    hide *;
    var v2, rise := v * v, (x * x) * (tangent * tangent);
    SquareGrows(0.0, v);
    SquareGrows(0.0, v2);
    FlatMeans(t, v2, x * x, climb);
    Rises(x, v2, tangent, climb);
    Cancel(t * t * v2 - x * x, rise, v2 * v2);
    SharedPart(x * x, tangent * tangent);
    Cancel(t * t, s * s, v2);
    SquareOrder(s, t);
  }

  lemma SharedPart(a: real, b: real)
    ensures a * (1.0 + b) == a + a * b
  {
  }

  lemma Rises(x: real, v2: real, tangent: real, climb: real)
    requires tangent * (x * v2) == climb
    ensures climb * climb == ((x * x) * (tangent * tangent)) * (v2 * v2)
  {
    hide *;
    Regroup(tangent, x * v2, tangent, x * v2);
    Regroup(x, v2, x, v2);
    Reorder(tangent * tangent, x * x, v2 * v2);
  }

  lemma Reorder(a: real, b: real, c: real)
    ensures a * (b * c) == (b * a) * c
  {
  }

  lemma Undone(a: real, b: real, q: real)
    requires b > 0.0 && q == a / b
    ensures q * b == a
  {
  }

  lemma FlatMeans(t: real, v2: real, x2: real, climb: real)
    requires FlatFlight(t, v2, x2, climb)
    ensures t > 0.0 && (t * t * v2 - x2) * (v2 * v2) == climb * climb
  {
  }
}
