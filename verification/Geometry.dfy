/** Points and the horizontal (X/Z) measure every director and controller uses. */
module Geometry {

  datatype Vec3 = Vec3(x: real, y: real, z: real)

  function Horizontal2(p: Vec3, q: Vec3): (d: real)
    ensures d >= 0.0
  {
    Square(q.x - p.x) + Square(q.z - p.z)
  }

  function Square(x: real): (s: real)
    ensures s >= 0.0
  {
    x * x
  }

  /** `horizontal_distance(p, q) <= r`, without the square root. */
  predicate Within(p: Vec3, q: Vec3, r: real) {
    r >= 0.0 && Horizontal2(p, q) <= r * r
  }

  /** A square root: what the model asks of the library function it stands for. */
  ghost predicate IsSqrt(f: real -> real) {
    forall x: real :: x >= 0.0 ==> f(x) >= 0.0 && f(x) * f(x) == x
  }

  lemma SquareOrder(a: real, b: real)
    requires 0.0 <= a && 0.0 <= b
    ensures a <= b <==> a * a <= b * b
    ensures a < b <==> a * a < b * b
    ensures a == b <==> a * a == b * b
  {
    if a < b {
      SquareGrows(a, b);
    } else if b < a {
      SquareGrows(b, a);
    }
  }

  lemma SquareGrows(a: real, b: real)
    requires 0.0 <= a < b
    ensures a * a < b * b
  {
    var d := b - a;
    assert d * b > 0.0 && a * d >= 0.0;
    assert b * b - a * a == d * b + a * d;
  }

  lemma ScaleOrder(a: real, b: real, c: real)
    requires c > 0.0
    ensures a <= b <==> a * c <= b * c
  {
    if a <= b {
      assert (b - a) * c >= 0.0;
    } else {
      assert (a - b) * c > 0.0;
    }
  }

  lemma Cancel(a: real, b: real, c: real)
    requires c > 0.0 && a * c == b * c
    ensures a == b
  {
    assert (a - b) * c == 0.0;
  }

  lemma Regroup(a: real, b: real, c: real, d: real)
    ensures (a * b) * (c * d) == (a * c) * (b * d)
  {
    assert (a * b) * (c * d) == a * (b * (c * d));
    assert b * (c * d) == c * (b * d);
  }

  function Distance(sqrt: real -> real, p: Vec3, q: Vec3): real {
    sqrt(Horizontal2(p, q))
  }

  lemma DistanceFacts(sqrt: real -> real, p: Vec3, q: Vec3)
    requires IsSqrt(sqrt)
    ensures Distance(sqrt, p, q) >= 0.0
    ensures Distance(sqrt, p, q) * Distance(sqrt, p, q) == Horizontal2(p, q)
    ensures Distance(sqrt, p, q) == 0.0 <==> Horizontal2(p, q) == 0.0
  {
    SquareOrder(0.0, Distance(sqrt, p, q));
  }

  /** What is lost of the product of two lengths is in the cross product. */
  lemma Lagrange(ax: real, az: real, bx: real, bz: real)
    ensures var dot, cross := ax * bx + az * bz, ax * bz - az * bx;
      dot * dot + cross * cross == (ax * ax + az * az) * (bx * bx + bz * bz)
  {
    var p, q, u, v := ax * bx, az * bz, ax * bz, az * bx;
    Regroup(ax, bx, ax, bx);
    Regroup(az, bz, az, bz);
    Regroup(ax, bz, ax, bz);
    Regroup(az, bx, az, bx);
    Regroup(ax, bx, az, bz);
    Regroup(ax, bz, az, bx);
    SumSquared(p, q);
    SumSquared(u, -v);
    SumTimes(ax * ax, az * az, bx * bx, bz * bz);
  }

  lemma SumSquared(p: real, q: real)
    ensures (p + q) * (p + q) == p * p + 2.0 * (p * q) + q * q
  {
  }

  lemma SumTimes(a: real, b: real, c: real, d: real)
    ensures (a + b) * (c + d) == a * c + a * d + b * c + b * d
  {
  }

  lemma CauchySchwarz(ax: real, az: real, bx: real, bz: real, r: real, s: real)
    requires r >= 0.0 && s >= 0.0 && ax * ax + az * az == r * r && bx * bx + bz * bz == s * s
    ensures ax * bx + az * bz <= r * s
  {
    var dot, cross := ax * bx + az * bz, ax * bz - az * bx;
    Lagrange(ax, az, bx, bz);
    Regroup(r, s, r, s);
    assert cross * cross >= 0.0;
    if dot > r * s {
      SquareOrder(r * s, dot);
    }
  }

  lemma HorizontalIs(p: Vec3, q: Vec3, x: real, z: real)
    requires x == q.x - p.x && z == q.z - p.z
    ensures Horizontal2(p, q) == x * x + z * z
  {
  }

  lemma DetourSquared(p: Vec3, q: Vec3, t: Vec3, r: real, s: real)
    requires r >= 0.0 && s >= 0.0 && r * r == Horizontal2(p, q) && s * s == Horizontal2(q, t)
    ensures Horizontal2(p, t) <= (r + s) * (r + s)
  {
    hide *;
    var ax, az, bx, bz := q.x - p.x, q.z - p.z, t.x - q.x, t.z - q.z;
    HorizontalIs(p, q, ax, az);
    HorizontalIs(q, t, bx, bz);
    HorizontalIs(p, t, ax + bx, az + bz);
    CauchySchwarz(ax, az, bx, bz, r, s);
    SumSquared(ax, bx);
    SumSquared(az, bz);
    SumSquared(r, s);
  }

  lemma TriangleInequality(sqrt: real -> real, p: Vec3, q: Vec3, t: Vec3)
    requires IsSqrt(sqrt)
    ensures Distance(sqrt, p, t) <= Distance(sqrt, p, q) + Distance(sqrt, q, t)
  {
    DistanceFacts(sqrt, p, q);
    DistanceFacts(sqrt, q, t);
    DistanceFacts(sqrt, p, t);
    hide *;
    var r, s := Distance(sqrt, p, q), Distance(sqrt, q, t);
    DetourSquared(p, q, t, r, s);
    SquareOrder(Distance(sqrt, p, t), r + s);
  }
}
