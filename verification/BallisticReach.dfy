/** What can be hit at all, whatever solves for it, and where the solver's refusals are right. */
module BallisticReach {
  import opened Geometry
  import opened Vectors
  import opened Ballistics
  import opened Wrappers

  // ----- who reaches at `t` -------------------------------------------------------------------

  /** The way a shot must cover by itself, gravity having done its part by `t`. */
  function Needs(way: Vec3, gravity: Vec3, t: real): Vec3 {
    Subtract(way, Scale(gravity, t * t / 2.0))
  }

  lemma HitsMeansNeeds(launch: Vec3, target: Vec3, v: real, gravity: Vec3, direction: Vec3, t: real)
    requires t > 0.0
    ensures Hits(launch, target, v, gravity, direction, t) <==>
      Scale(direction, v * t) == Needs(Subtract(target, launch), gravity, t)
  {
    hide Scale;
    Moved(launch, target, Scale(direction, v * t), Scale(gravity, t * t / 2.0));
  }

  lemma Moved(launch: Vec3, target: Vec3, path: Vec3, fall: Vec3)
    ensures Add(Add(launch, path), fall) == target <==> path == Subtract(Subtract(target, launch), fall)
  {
  }

  /** What the length a shot needs at `t` is over the length it has, squared, by `s`, the
      square of `t`. */
  function Excess(v: real, way: Vec3, gravity: Vec3, s: real): real {
    Quadratic(Dot(gravity, gravity) / 4.0, v * v + Dot(way, gravity), Dot(way, way), s)
  }

  function Quadratic(a: real, b: real, c: real, s: real): real {
    a * (s * s) - b * s + c
  }

  lemma ExcessMeans(v: real, way: Vec3, gravity: Vec3, t: real)
    ensures var needs := Needs(way, gravity, t);
      Dot(needs, needs) - (v * t) * (v * t) == Excess(v, way, gravity, t * t)
  {
    var s, along, pull := t * t, Dot(way, gravity), Dot(gravity, gravity);
    var k := s / 2.0;
    var fall := Scale(gravity, k);
    hide Dot, Scale, Subtract;
    DotSubtract(way, fall, Subtract(way, fall));
    DotSubtract(way, fall, way);
    DotSubtract(way, fall, fall);
    DotScale(gravity, k, way);
    DotScale(gravity, k, gravity);
    DotScale(gravity, k, fall);
    assert k * (k * pull) == pull / 4.0 * (s * s);
    assert k * along + k * along == along * s;
    Regroup(v, t, v, t);
    assert (v * v + along) * s == (v * v) * s + along * s;
  }

  /** Somebody hits at `t` exactly where nothing is over. */
  lemma HitAt(launch: Vec3, target: Vec3, v: real, gravity: Vec3, t: real)
    requires v > 0.0 && t > 0.0
    ensures (exists direction :: Unit(direction) && Hits(launch, target, v, gravity, direction, t)) <==>
      Excess(v, Subtract(target, launch), gravity, t * t) == 0.0
  {
    var way, length := Subtract(target, launch), v * t;
    var needs := Needs(way, gravity, t);
    ExcessMeans(v, way, gravity, t);
    hide Dot, Excess, Needs, Scale, Hits, Subtract;
    forall direction | Unit(direction) && Hits(launch, target, v, gravity, direction, t)
      ensures Dot(needs, needs) == length * length
    {
      HitsMeansNeeds(launch, target, v, gravity, direction, t);
      DotScale(direction, length, direction);
      DotScale(direction, length, needs);
    }
    if Dot(needs, needs) == length * length {
      var k := 1.0 / length;
      assert k * length == 1.0;
      var direction := Scale(needs, k);
      DotScale(needs, k, needs);
      DotScale(needs, k, direction);
      assert k * (k * (length * length)) == (k * length) * (k * length);
      ScaleTwice(needs, k, length, 1.0);
      ScaleOne(needs);
      HitsMeansNeeds(launch, target, v, gravity, direction, t);
    }
  }

  // ----- when the excess is nothing -----------------------------------------------------------------

  function Spare(a: real, b: real, c: real): real {
    b * b - 4.0 * (a * c)
  }

  /** `a s^2 + c == b s` at some `s` above zero and no more than `most`. */
  predicate Meets(sqrt: real -> real, a: real, b: real, c: real, most: real) {
    if c == 0.0 then a > 0.0 && b > 0.0 && b <= a * most
    else Spare(a, b, c) >= 0.0 && b > 0.0 && 2.0 * c <= most * (b + sqrt(Spare(a, b, c)))
  }

  lemma RootMeets(sqrt: real -> real, a: real, b: real, c: real, most: real, s: real)
    requires IsSqrt(sqrt) && a >= 0.0 && c >= 0.0 && (c == 0.0 ==> b > 0.0)
    requires 0.0 < s <= most && Quadratic(a, b, c, s) == 0.0
    ensures Meets(sqrt, a, b, c, most)
  {
    var q := a * s;
    Balanced(a, b, c, s, q);
    Positive(b - q, s, c);
    NonNegativeProduct(a, s);
    if c == 0.0 {
      ScaleOrder(s, most, a);
    } else {
      var w := 2.0 * q - b;
      SpareIsSquare(a, b, c, s, q, w);
      NonNegative(w);
      var root := sqrt(Spare(a, b, c));
      hide Spare, Quadratic;
      RootBound(w, root);
      FirstRoot(b, c, s, q, w, root, most);
    }
  }

  lemma FirstRoot(b: real, c: real, s: real, q: real, w: real, root: real, most: real)
    requires (b - q) * s == c && w == 2.0 * q - b && w >= -root && root >= 0.0 && b > 0.0
    requires 0.0 < s <= most
    ensures 2.0 * c <= most * (b + root)
  {
    var near, far := b - w, b + root;
    assert near == 2.0 * (b - q);
    assert near * s == 2.0 * c;
    ScaleOrder(near, far, s);
    ScaleOrder(s, most, far);
    assert far * s == s * far && 2.0 * c <= most * far;
  }

  lemma Balanced(a: real, b: real, c: real, s: real, q: real)
    requires q == a * s && Quadratic(a, b, c, s) == 0.0
    ensures (b - q) * s == c
  {
    assert q * s == a * (s * s);
    assert (b - q) * s == b * s - q * s;
  }

  lemma SpareIsSquare(a: real, b: real, c: real, s: real, q: real, w: real)
    requires q == a * s && (b - q) * s == c && w == 2.0 * q - b
    ensures w * w == Spare(a, b, c)
  {
    assert a * c == q * (b - q) by { assert a * ((b - q) * s) == q * (b - q); }
    assert w * w == 4.0 * (q * q) - 4.0 * (q * b) + b * b;
    assert q * (b - q) == q * b - q * q;
  }

  lemma Positive(x: real, s: real, c: real)
    requires s > 0.0 && x * s == c && c >= 0.0
    ensures x >= 0.0 && (c > 0.0 ==> x > 0.0) && (c == 0.0 ==> x == 0.0)
  {
  }

  lemma NonNegativeProduct(a: real, s: real)
    requires a >= 0.0 && s >= 0.0
    ensures a * s >= 0.0 && (s > 0.0 && a * s > 0.0 ==> a > 0.0)
  {
  }

  lemma MeetsRoot(sqrt: real -> real, a: real, b: real, c: real, most: real) returns (s: real)
    requires IsSqrt(sqrt) && a >= 0.0 && c >= 0.0
    requires Meets(sqrt, a, b, c, most)
    ensures 0.0 < s <= most && Quadratic(a, b, c, s) == 0.0
  {
    if c == 0.0 {
      s := b / a;
      assert s * a == b;
      assert a * (s * s) == b * s;
      Quotient(b, a, most, s);
    } else {
      var root := sqrt(Spare(a, b, c));
      var sum := b + root;
      s := 2.0 * c / sum;
      assert s * sum == 2.0 * c;
      Quotient(2.0 * c, sum, most, s);
      RationalRoot(a, b, c, root, s);
    }
  }

  lemma Quotient(num: real, den: real, most: real, q: real)
    requires num > 0.0 && den > 0.0 && q * den == num && num <= most * den
    ensures 0.0 < q <= most
  {
    ScaleOrder(q, most, den);
  }

  lemma RationalRoot(a: real, b: real, c: real, root: real, s: real)
    requires b > 0.0 && root >= 0.0 && root * root == Spare(a, b, c) && s * (b + root) == 2.0 * c && c > 0.0
    ensures Quadratic(a, b, c, s) == 0.0
  {
    var sum := b + root;
    var half := (b - root) / 2.0;
    assert half * sum == 2.0 * (a * c) by { assert (b - root) * (b + root) == b * b - root * root; }
    assert (a * s) * sum == a * (s * sum);
    Cancel(a * s, half, sum);
    assert (a * s) * s == half * s;
    assert (half - b) * s == -(s * sum) / 2.0 by { assert half - b == -sum / 2.0; }
  }

  // ----- what is in reach -----------------------------------------------------------------------------

  /** Something shot at speed `v` can be on the target within the limit: two squared lengths,
      one dot product and one square root say so, the same for any gravity and any target. */
  predicate InReach(sqrt: real -> real, launch: Vec3, target: Vec3, v: real, gravity: Vec3, limit: real) {
    var way := Subtract(target, launch);
    limit > 0.0 &&
    Meets(sqrt, Dot(gravity, gravity) / 4.0, v * v + Dot(way, gravity), Dot(way, way), limit * limit)
  }

  lemma ReachExactly(sqrt: real -> real, launch: Vec3, target: Vec3, v: real, gravity: Vec3, limit: real)
    requires IsSqrt(sqrt) && v > 0.0
    ensures InReach(sqrt, launch, target, v, gravity, limit) <==> !NobodyReaches(launch, target, v, gravity, limit)
  {
    hide Hits, Unit, Meets, Dot, Subtract;
    if InReach(sqrt, launch, target, v, gravity, limit) {
      var direction, t := ReachedInTime(sqrt, launch, target, v, gravity, limit);
    }
    forall direction, t: real | Unit(direction) && t <= limit && Hits(launch, target, v, gravity, direction, t)
      ensures InReach(sqrt, launch, target, v, gravity, limit)
    {
      HitInReach(sqrt, launch, target, v, gravity, limit, direction, t);
    }
  }

  lemma ReachedInTime(sqrt: real -> real, launch: Vec3, target: Vec3, v: real, gravity: Vec3, limit: real)
    returns (direction: Vec3, t: real)
    requires IsSqrt(sqrt) && v > 0.0 && InReach(sqrt, launch, target, v, gravity, limit)
    ensures Unit(direction) && t <= limit && Hits(launch, target, v, gravity, direction, t)
  {
    var way := Subtract(target, launch);
    var a, b, c := Dot(gravity, gravity) / 4.0, v * v + Dot(way, gravity), Dot(way, way);
    DotSelf(gravity);
    DotSelf(way);
    hide Dot, Meets, Hits, Unit, Subtract, Quadratic;
    var s := MeetsRoot(sqrt, a, b, c, limit * limit);
    t := sqrt(s);
    RootInTime(s, t, limit);
    HitAt(launch, target, v, gravity, t);
    direction :| Unit(direction) && Hits(launch, target, v, gravity, direction, t);
  }

  lemma RootInTime(s: real, t: real, limit: real)
    requires t >= 0.0 && t * t == s && 0.0 < s <= limit * limit && limit > 0.0
    ensures 0.0 < t <= limit
  {
    NonNegative(t);
    SquareOrder(t, limit);
  }

  lemma HitInReach(sqrt: real -> real, launch: Vec3, target: Vec3, v: real, gravity: Vec3, limit: real, direction: Vec3,
                   t: real)
    requires IsSqrt(sqrt) && v > 0.0
    requires Unit(direction) && t <= limit && Hits(launch, target, v, gravity, direction, t)
    ensures InReach(sqrt, launch, target, v, gravity, limit)
  {
    var way := Subtract(target, launch);
    var a, b, c := Dot(gravity, gravity) / 4.0, v * v + Dot(way, gravity), Dot(way, way);
    DotSelf(gravity);
    DotSelf(way);
    NoWay(way, gravity);
    hide Dot, Meets, Unit, Subtract, Quadratic, PositionAt;
    SquareOrder(t, limit);
    HitAt(launch, target, v, gravity, t);
    hide Hits;
    NonNegative(v);
    NonNegative(t);
    RootMeets(sqrt, a, b, c, limit * limit, t * t);
  }

  lemma NoWay(way: Vec3, gravity: Vec3)
    ensures Dot(way, way) == 0.0 ==> Dot(way, gravity) == 0.0
  {
    hide Dot;
    DotSelf(way);
    ZeroDot(gravity);
  }

  lemma ZeroDot(a: Vec3)
    ensures Dot(ZERO, a) == 0.0
  {
  }

  // ----- where a refusal is right ----------------------------------------------------------------------

  /** The tolerances look away: from gravity too weak to tell, or from a target within them
      of the line of gravity, unless it is right on that line and not too near. */
  ghost predicate Overlooked(sqrt: real -> real, launch: Vec3, target: Vec3, gravity: Vec3)
    requires IsSqrt(sqrt)
  {
    || Negligible(Dot(gravity, gravity))
    || (MagnitudeFacts(sqrt, gravity);
      CloseBy(Dot(Across(sqrt, launch, target, gravity), Across(sqrt, launch, target, gravity)),
                                               Height(sqrt, launch, target, gravity)))
  }

  predicate CloseBy(x2: real, h: real) {
    Negligible(x2) && !(x2 == 0.0 && Abs(h) > EPSILON)
  }

  /** The solver refuses a target it could hit exactly where its tolerances overlook one that
      is in reach. Every other refusal is right: nobody hits within the limit. */
  lemma RefusalsRight(sqrt: real -> real, launch: Vec3, target: Vec3, v: real, gravity: Vec3, limit: real)
    requires IsSqrt(sqrt) && v > 0.0 && SolveLow(sqrt, launch, target, v, gravity, limit).None?
    ensures NobodyReaches(launch, target, v, gravity, limit) <==>
      !(Overlooked(sqrt, launch, target, gravity) && InReach(sqrt, launch, target, v, gravity, limit))
  {
    ReachExactly(sqrt, launch, target, v, gravity, limit);
    if limit > 0.0 && !Overlooked(sqrt, launch, target, gravity) {
      hide InReach, Height, Across, SolveLow, Dot, NobodyReaches, Discriminant;
      SolverExact(sqrt, launch, target, v, gravity, limit);
      hide *;
    }
  }

  /** On the line of gravity but too near it always refuses, though where the discriminant
      is not negative there is a soonest shot. */
  lemma NearRefused(sqrt: real -> real, launch: Vec3, target: Vec3, v: real, gravity: Vec3, limit: real)
    returns (shot: Solution)
    requires IsSqrt(sqrt) && Aimable(gravity, v, limit)
    requires (MagnitudeFacts(sqrt, gravity); Across(sqrt, launch, target, gravity) == ZERO)
    requires (MagnitudeFacts(sqrt, gravity); 0.0 < Abs(Height(sqrt, launch, target, gravity)) <= EPSILON)
    requires (MagnitudeFacts(sqrt, gravity);
              v * v - 2.0 * Magnitude(sqrt, gravity) * Height(sqrt, launch, target, gravity) >= 0.0)
    ensures SolveLow(sqrt, launch, target, v, gravity, limit).None?
    ensures SoonestHit(launch, target, v, gravity, shot)
  {
    hide *;
    AimableMeans(gravity, v, limit);
    SettingHolds(sqrt, launch, target, gravity);
    ZeroNegligible();
    var g := Magnitude(sqrt, gravity);
    var up, h := Up(gravity, g), Height(sqrt, launch, target, gravity);
    var root := RootOf(sqrt, v * v - 2.0 * g * h);
    shot := Solution(Scale(up, Way(h)), VerticalSeconds(h, v, g, root));
    NearRefusedAlong(sqrt, up, h, v, g, limit);
    Solves(sqrt, launch, target, v, gravity, limit, g, up, h, ZERO);
    VerticalShot(launch, target, v, gravity, g, up, h, ZERO, root);
  }

  lemma RootOf(sqrt: real -> real, x: real) returns (root: real)
    requires IsSqrt(sqrt) && x >= 0.0
    ensures root >= 0.0 && root * root == x
  {
    root := sqrt(x);
  }

  lemma NearRefusedAlong(sqrt: real -> real, up: Vec3, h: real, v: real, g: real, limit: real)
    requires IsSqrt(sqrt) && v > 0.0 && g > 0.0 && Abs(h) <= EPSILON
    ensures VerticalSolution(sqrt, up, h, v, g, limit).None? && (Abs(h) > 0.0 <==> h != 0.0)
  {
  }

  lemma ZeroNegligible()
    ensures Negligible(Dot(ZERO, ZERO))
  {
    DotSelf(ZERO);
  }

  /** A shot straight up is back where it started in `2 v / g`; where that is within the
      limit, refusing to aim at one's own place is wrong. It always refuses. */
  lemma OwnPlaceRefused(sqrt: real -> real, launch: Vec3, v: real, gravity: Vec3, limit: real)
    requires IsSqrt(sqrt) && Aimable(gravity, v, limit)
    ensures SolveLow(sqrt, launch, launch, v, gravity, limit).None?
    ensures NobodyReaches(launch, launch, v, gravity, limit)
      <==> 4.0 * (v * v) > Dot(gravity, gravity) * (limit * limit)
  {
    hide *;
    NothingIsNear();
    AimableMeans(gravity, v, limit);
    SettingHolds(sqrt, launch, launch, gravity);
    var g := Magnitude(sqrt, gravity);
    OwnSetting(sqrt, launch, gravity);
    ZeroNegligible();
    NearRefusedAlong(sqrt, Up(gravity, g), 0.0, v, g, limit);
    Solves(sqrt, launch, launch, v, gravity, limit, g, Up(gravity, g), 0.0, ZERO);
    ReachExactly(sqrt, launch, launch, v, gravity, limit);
    OwnReach(sqrt, launch, v, gravity, limit);
  }

  lemma NothingIsNear()
    ensures Abs(0.0) <= EPSILON
  {
  }

  lemma OwnSetting(sqrt: real -> real, launch: Vec3, gravity: Vec3)
    requires IsSqrt(sqrt) && Magnitude(sqrt, gravity) > 0.0
    ensures Height(sqrt, launch, launch, gravity) == 0.0 && Across(sqrt, launch, launch, gravity) == ZERO
  {
    var up := Up(gravity, Magnitude(sqrt, gravity));
    assert Subtract(launch, launch) == ZERO;
    ZeroDot(up);
    hide Up, Magnitude, Dot;
  }

  lemma OwnReach(sqrt: real -> real, launch: Vec3, v: real, gravity: Vec3, limit: real)
    requires IsSqrt(sqrt) && v > 0.0 && limit > 0.0 && Dot(gravity, gravity) > 0.0
    ensures InReach(sqrt, launch, launch, v, gravity, limit)
      <==> 4.0 * (v * v) <= Dot(gravity, gravity) * (limit * limit)
  {
    hide Dot, Meets;
    assert Subtract(launch, launch) == ZERO;
    ZeroDot(gravity);
    ZeroDot(ZERO);
    NonNegative(v);
    MeetsAtNothing(sqrt, Dot(gravity, gravity), v * v, limit * limit);
  }

  lemma MeetsAtNothing(sqrt: real -> real, pull: real, b: real, most: real)
    requires pull > 0.0 && b > 0.0
    ensures Meets(sqrt, pull / 4.0, b, 0.0, most) <==> 4.0 * b <= pull * most
  {
  }

  // ----- where a shot given is wrong ----------------------------------------------------------------------

  const DOWN: Vec3 := Vec3(0.0, -10.0, 0.0)

  lemma RootIs(sqrt: real -> real, root: real)
    requires IsSqrt(sqrt) && root >= 0.0
    ensures sqrt(root * root) == root
  {
    NonNegative(root);
    SquareOrder(sqrt(root * root), root);
  }

  lemma DownSetting(sqrt: real -> real, target: Vec3)
    requires IsSqrt(sqrt)
    ensures Magnitude(sqrt, DOWN) == 10.0 && Up(DOWN, 10.0) == Vec3(0.0, 1.0, 0.0)
    ensures Height(sqrt, ZERO, target, DOWN) == target.y
    ensures Across(sqrt, ZERO, target, DOWN) == Vec3(target.x, 0.0, target.z)
  {
    hide Magnitude, Up, Dot, Subtract, Scale, IsSqrt;
    DownPulls(sqrt);
    UpIsY();
    HeightIsY(target);
  }

  lemma UpIsY()
    ensures Up(DOWN, 10.0) == Vec3(0.0, 1.0, 0.0)
  {
  }

  lemma HeightIsY(target: Vec3)
    ensures Subtract(target, ZERO) == target && Dot(target, Vec3(0.0, 1.0, 0.0)) == target.y
    ensures Subtract(target, Scale(Vec3(0.0, 1.0, 0.0), target.y)) == Vec3(target.x, 0.0, target.z)
  {
  }

  lemma DownPulls(sqrt: real -> real)
    requires IsSqrt(sqrt)
    ensures Magnitude(sqrt, DOWN) == 10.0
  {
    assert Dot(DOWN, DOWN) == 10.0 * 10.0;
    hide Dot, IsSqrt;
    RootIs(sqrt, 10.0);
  }

  /** A discriminant of -0.000001 is taken for 0: the shot is given, and nothing ever hits. */
  lemma ShotIntoNothing(sqrt: real -> real, ever: real)
    requires IsSqrt(sqrt)
    ensures var target := Vec3(0.1, 0.00000005, 0.0);
      SolveLow(sqrt, ZERO, target, 1.0, DOWN, 1.0).Some? && NobodyReaches(ZERO, target, 1.0, DOWN, ever)
  {
    var target := Vec3(0.1, 0.00000005, 0.0);
    var up, across := Vec3(0.0, 1.0, 0.0), Vec3(0.1, 0.0, 0.0);
    hide *;
    DownSetting(sqrt, target);
    LittleSquares(sqrt, across);
    SlackGives(sqrt, up, across);
    DownIsAimable();
    AimableMeans(DOWN, 1.0, 1.0);
    Solves(sqrt, ZERO, target, 1.0, DOWN, 1.0, 10.0, up, 0.00000005, across);
    SettingHolds(sqrt, ZERO, target, DOWN);
    NobodyBelow(ZERO, target, 1.0, DOWN, 10.0, up, 0.00000005, across, ever);
  }

  lemma DownIsAimable()
    ensures Aimable(DOWN, 1.0, 1.0)
  {
  }

  lemma LittleSquares(sqrt: real -> real, across: Vec3)
    requires IsSqrt(sqrt) && across == Vec3(0.1, 0.0, 0.0)
    ensures Dot(across, across) == 0.01 && Magnitude(sqrt, across) == 0.1 && !Negligible(Dot(across, across))
    ensures Discriminant(10.0, Dot(across, across), 0.00000005, 1.0) < 0.0
  {
    assert Dot(across, across) == 0.01;
    RootIs(sqrt, 0.1);
    assert Drop(10.0, 0.01, 0.00000005, 1.0) == 1.000001;
  }

  lemma SlackGives(sqrt: real -> real, up: Vec3, across: Vec3)
    requires IsSqrt(sqrt)
    ensures ArcSolution(sqrt, up, across, 0.1, 0.00000005, 1.0, 10.0, 1.0).Some?
  {
    assert Drop(10.0, 0.1 * 0.1, 0.00000005, 1.0) == 1.000001;
    RootIs(sqrt, 0.0);
    var tangent := Tangent(10.0, 0.1, 0.00000005, 1.0, 0.0);
    assert tangent * 0.1 == 0.1000001;
    var cosine := Cosine(sqrt, tangent);
    hide Cosine, Tangent;
    NotSteep(cosine, tangent);
    assert 1.0 * cosine == cosine;
  }

  lemma NotSteep(cosine: real, tangent: real)
    requires tangent == 1.000001 && cosine > 0.0 && (cosine * cosine) * (1.0 + tangent * tangent) == 1.0
    ensures 0.0 < 0.1 / cosine <= 1.0
  {
    var c2 := cosine * cosine;
    assert c2 >= 0.25;
    SquareOrder(0.5, cosine);
    var q := 0.1 / cosine;
    assert q * cosine == 0.1;
    ScaleOrder(q, 1.0, cosine);
  }

  /** A target 0.00005 beside a line 1 up is shot at along it, and missed. */
  lemma ShotBeside(sqrt: real -> real)
    requires IsSqrt(sqrt)
    ensures var target := Vec3(0.00005, 1.0, 0.0);
      var shot := SolveLow(sqrt, ZERO, target, 6.0, DOWN, 1.0);
      && shot == Some(Solution(Vec3(0.0, 1.0, 0.0), 0.2))
      && !Hits(ZERO, target, 6.0, DOWN, shot.value.direction, shot.value.seconds)
  {
    var target := Vec3(0.00005, 1.0, 0.0);
    var up, across := Vec3(0.0, 1.0, 0.0), Vec3(0.00005, 0.0, 0.0);
    hide *;
    DownSetting(sqrt, target);
    AlongUpGives(sqrt, up);
    BesideSquares(across);
    StaysOnLine(target, up);
    BesideAimable();
    Solves(sqrt, ZERO, target, 6.0, DOWN, 1.0, 10.0, up, 1.0, across);
  }

  lemma StaysOnLine(target: Vec3, up: Vec3)
    requires target.x != 0.0 && up == Vec3(0.0, 1.0, 0.0)
    ensures !Hits(ZERO, target, 6.0, DOWN, up, 0.2)
  {
    hide Scale;
    NoneAcross(up, 6.0 * 0.2);
    NoneAcross(DOWN, 0.2 * 0.2 / 2.0);
  }

  lemma NoneAcross(a: Vec3, k: real)
    requires a.x == 0.0
    ensures Scale(a, k).x == 0.0
  {
  }

  lemma BesideAimable()
    ensures Aimable(DOWN, 6.0, 1.0)
  {
  }

  lemma BesideSquares(across: Vec3)
    requires across == Vec3(0.00005, 0.0, 0.0)
    ensures Negligible(Dot(across, across))
  {
  }

  lemma AlongUpGives(sqrt: real -> real, up: Vec3)
    requires IsSqrt(sqrt) && up == Vec3(0.0, 1.0, 0.0)
    ensures VerticalSolution(sqrt, up, 1.0, 6.0, 10.0, 1.0) == Some(Solution(up, 0.2))
  {
    RootIs(sqrt, 4.0);
    assert 6.0 * 6.0 - 2.0 * 10.0 * 1.0 == 4.0 * 4.0;
    assert Scale(up, 1.0) == up;
  }
}
