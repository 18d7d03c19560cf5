/** What a node's matrix does to a point: the same scaling, turn and move the pose is made of. */
module PoseMatrix {
  import opened Geometry
  import opened Vectors
  import opened Mirror
  import opened SkeletonPose

  /** Where a matrix takes a point. */
  function Carry(m: Matrix, p: Vec3): Vec3 {
    Vec3(Row(m, 0, p, 1.0), Row(m, 1, p, 1.0), Row(m, 2, p, 1.0))
  }

  function Row(m: Matrix, row: nat, p: Vec3, w: real): real
    requires row < 4
  {
    At(m, row, 0) * p.x + At(m, row, 1) * p.y + At(m, row, 2) * p.z + At(m, row, 3) * w
  }

  // ----- a turn, component by component ----------------------------------------------------------

  /** The axes, one on. */
  function NextAxes(v: Vec3): Vec3 {
    Vec3(v.y, v.z, v.x)
  }

  function NextQuat(q: Quat): Quat {
    Quat(q.y, q.z, q.x, q.w)
  }

  lemma MultiplyCycles(a: Quat, b: Quat)
    ensures QuatMultiply(NextQuat(a), NextQuat(b)) == NextQuat(QuatMultiply(a, b))
  {
    hide Mixture;
  }

  /** No axis is special to a rotation. */
  lemma RotateCycles(q: Quat, v: Vec3)
    ensures Rotate(NextQuat(q), NextAxes(v)) == NextAxes(Rotate(q, v))
  {
    hide QuatMultiply;
    MultiplyCycles(q, Pure(v));
    MultiplyCycles(QuatMultiply(q, Pure(v)), Conjugate(q));
    assert Pure(NextAxes(v)) == NextQuat(Pure(v));
    assert Conjugate(NextQuat(q)) == NextQuat(Conjugate(q));
  }

  /** `X` of what a rotation makes of a vector, as the matrix has it. */
  function TurnedX(q: Quat, v: Vec3): real {
    (1.0 - 2.0 * (q.y * q.y + q.z * q.z)) * v.x + 2.0 * (q.x * q.y - q.z * q.w) * v.y
      + 2.0 * (q.x * q.z + q.y * q.w) * v.z
  }

  lemma RotateX(q: Quat, v: Vec3)
    requires Norm2(q) == 1.0
    ensures Rotate(q, v).x == TurnedX(q, v)
  {
    hide Mixture, Scalar, TurnedX;
    var t := QuatMultiply(q, Pure(v));
    assert Rotate(q, v).x == Mixture(t.w, -q.x, t.x, q.w, t.y, -q.z, t.z, -q.y);
    Spread(q, v, t);
    CoefficientX(q.x, q.y, q.z, q.w, v.x);
    CoefficientY(q.x, q.y, q.z, q.w, v.y);
    CoefficientZ(q.x, q.y, q.z, q.w, v.z);
    hide *;
    TurnedIs(q, v);
  }

  lemma TurnedIs(q: Quat, v: Vec3)
    ensures TurnedX(q, v) ==
      (1.0 - 2.0 * (q.y * q.y + q.z * q.z)) * v.x + 2.0 * (q.x * q.y - q.z * q.w) * v.y
        + 2.0 * (q.x * q.z + q.y * q.w) * v.z
  {
  }

  lemma Spread(q: Quat, v: Vec3, t: Quat)
    requires t == QuatMultiply(q, Pure(v))
    ensures var x, y, z, w := q.x, q.y, q.z, q.w;
      Mixture(t.w, -x, t.x, w, t.y, -z, t.z, -y) ==
        ((x * v.x) * x + (w * v.x) * w - (z * v.x) * z - (y * v.x) * y)
        + ((y * v.y) * x - (z * v.y) * w - (w * v.y) * z + (x * v.y) * y)
        + ((z * v.z) * x + (y * v.z) * w + (x * v.z) * z + (w * v.z) * y)
  {
    var x, y, z, w := q.x, q.y, q.z, q.w;
    assert t.w == -(x * v.x + y * v.y + z * v.z);
    assert t.x == w * v.x + y * v.z - z * v.y;
    assert t.y == w * v.y + z * v.x - x * v.z;
    assert t.z == w * v.z + x * v.y - y * v.x;
    hide QuatMultiply, Scalar;
    Both(t.w, x);
    Both(t.y, z);
    Both(t.z, y);
    assert Mixture(t.w, -x, t.x, w, t.y, -z, t.z, -y) == -(t.w * x) + t.x * w - t.y * z + t.z * y;
    hide *;
    Opened(q, v, t);
  }

  lemma Opened(q: Quat, v: Vec3, t: Quat)
    requires t.w == -(q.x * v.x + q.y * v.y + q.z * v.z) && t.x == q.w * v.x + q.y * v.z - q.z * v.y
    requires t.y == q.w * v.y + q.z * v.x - q.x * v.z && t.z == q.w * v.z + q.x * v.y - q.y * v.x
    ensures t.w * q.x == -((q.x * v.x) * q.x + (q.y * v.y) * q.x + (q.z * v.z) * q.x)
    ensures t.x * q.w == (q.w * v.x) * q.w + (q.y * v.z) * q.w - (q.z * v.y) * q.w
    ensures t.y * q.z == (q.w * v.y) * q.z + (q.z * v.x) * q.z - (q.x * v.z) * q.z
    ensures t.z * q.y == (q.w * v.z) * q.y + (q.x * v.y) * q.y - (q.y * v.x) * q.y
  {
    SpreadOver(q.x * v.x, q.y * v.y, q.z * v.z, q.x);
    Both(q.x * v.x + q.y * v.y + q.z * v.z, q.x);
    Product(t.w, -(q.x * v.x + q.y * v.y + q.z * v.z), q.x);
    SpreadLess(q.w * v.x, q.y * v.z, q.z * v.y, q.w);
    Product(t.x, q.w * v.x + q.y * v.z - q.z * v.y, q.w);
    SpreadLess(q.w * v.y, q.z * v.x, q.x * v.z, q.z);
    Product(t.y, q.w * v.y + q.z * v.x - q.x * v.z, q.z);
    SpreadLess(q.w * v.z, q.x * v.y, q.y * v.x, q.y);
    Product(t.z, q.w * v.z + q.x * v.y - q.y * v.x, q.y);
  }

  lemma Both(a: real, b: real)
    ensures a * (-b) == -(a * b) && (-a) * b == -(a * b)
  {
  }

  lemma SpreadOver(a: real, b: real, c: real, k: real)
    ensures (a + b + c) * k == a * k + b * k + c * k
  {
  }

  lemma SpreadLess(a: real, b: real, c: real, k: real)
    ensures (a + b - c) * k == a * k + b * k - c * k
  {
  }

  lemma CoefficientX(x: real, y: real, z: real, w: real, a: real)
    requires x * x + y * y + z * z + w * w == 1.0
    ensures (x * a) * x + (w * a) * w - (z * a) * z - (y * a) * y == (1.0 - 2.0 * (y * y + z * z)) * a
  {
    Assoc(x, a, x);
    Assoc(w, a, w);
    Assoc(z, a, z);
    Assoc(y, a, y);
    Weighted(x * x, w * w, -(z * z), -(y * y), a);
    Product(x * x + w * w - z * z - y * y, 1.0 - 2.0 * (y * y + z * z), a);
  }

  lemma CoefficientY(x: real, y: real, z: real, w: real, b: real)
    ensures (y * b) * x - (z * b) * w - (w * b) * z + (x * b) * y == 2.0 * (x * y - z * w) * b
  {
    Assoc(y, b, x);
    Assoc(z, b, w);
    Assoc(w, b, z);
    Assoc(x, b, y);
    Weighted(x * y, x * y, -(z * w), -(z * w), b);
  }

  lemma CoefficientZ(x: real, y: real, z: real, w: real, c: real)
    ensures (z * c) * x + (y * c) * w + (x * c) * z + (w * c) * y == 2.0 * (x * z + y * w) * c
  {
    Assoc(z, c, x);
    Assoc(y, c, w);
    Assoc(x, c, z);
    Assoc(w, c, y);
    Weighted(x * z, x * z, y * w, y * w, c);
  }

  lemma Weighted(a: real, b: real, c: real, d: real, k: real)
    ensures (a + b + c + d) * k == k * a + k * b + k * c + k * d
  {
  }

  // ----- the matrix ---------------------------------------------------------------------------------

  /** `X` of where a node's matrix takes a point. */
  lemma RowX(t: Vec3, q: Quat, s: Vec3, p: Vec3)
    ensures Row(LocalMatrix(t, q, s), 0, p, 1.0) == TurnedX(q, Scaled(p, s)) + t.x
  {
    var m := LocalMatrix(t, q, s);
    assert m[0] == Diagonal(q.y, q.z, s.x) && m[4] == Difference(q.x, q.y, q.z, q.w, s.y);
    assert m[8] == Sum(q.x, q.z, q.y, q.w, s.z) && m[12] == t.x;
    Entries(m[0], m[4], m[8], q, s, p);
  }

  lemma Entries(a: real, b: real, c: real, q: Quat, s: Vec3, p: Vec3)
    requires a == Diagonal(q.y, q.z, s.x) && b == Difference(q.x, q.y, q.z, q.w, s.y)
      && c == Sum(q.x, q.z, q.y, q.w, s.z)
    ensures a * p.x + b * p.y + c * p.z == TurnedX(q, Scaled(p, s))
  {
    Scales(1.0 - 2.0 * (q.y * q.y + q.z * q.z), s.x, p.x);
    Scales(2.0 * (q.x * q.y - q.z * q.w), s.y, p.y);
    Scales(2.0 * (q.x * q.z + q.y * q.w), s.z, p.z);
  }

  lemma Scales(k: real, s: real, p: real)
    ensures (k * s) * p == k * (p * s)
  {
  }

  /** The rows below the first are the first again, the axes moved on. */
  lemma RowsCycle(t: Vec3, q: Quat, s: Vec3, p: Vec3)
    ensures Row(LocalMatrix(t, q, s), 1, p, 1.0) ==
            Row(LocalMatrix(NextAxes(t), NextQuat(q), NextAxes(s)), 0, NextAxes(p), 1.0)
    ensures Row(LocalMatrix(t, q, s), 2, p, 1.0) ==
            Row(LocalMatrix(NextAxes(NextAxes(t)), NextQuat(NextQuat(q)), NextAxes(NextAxes(s))), 0,
              NextAxes(NextAxes(p)), 1.0)
  {
    TermsCommute(q, s);
    hide Diagonal, Sum, Difference;
    var m := LocalMatrix(t, q, s);
    var n := LocalMatrix(NextAxes(t), NextQuat(q), NextAxes(s));
    var o := LocalMatrix(NextAxes(NextAxes(t)), NextQuat(NextQuat(q)), NextAxes(NextAxes(s)));
    assert m[1] == n[8] && m[5] == n[0] && m[9] == n[4] && m[13] == n[12];
    assert m[2] == o[4] && m[6] == o[8] && m[10] == o[0] && m[14] == o[12];
  }

  lemma TermsCommute(q: Quat, s: Vec3)
    ensures Sum(q.x, q.y, q.z, q.w, s.x) == Sum(q.y, q.x, q.z, q.w, s.x)
    ensures Diagonal(q.x, q.z, s.y) == Diagonal(q.z, q.x, s.y)
    ensures Difference(q.x, q.z, q.y, q.w, s.x) == Difference(q.z, q.x, q.y, q.w, s.x)
    ensures Sum(q.y, q.z, q.x, q.w, s.y) == Sum(q.z, q.y, q.x, q.w, s.y)
  {
  }

  /** A node's matrix scales a point, turns it by the rotation and moves it. */
  lemma LocalMatrixCarries(t: Vec3, q: Quat, s: Vec3, p: Vec3)
    requires Norm2(q) == 1.0
    ensures Carry(LocalMatrix(t, q, s), p) == Add(Rotate(q, Scaled(p, s)), t)
  {
    var v, q1, q2 := Scaled(p, s), NextQuat(q), NextQuat(NextQuat(q));
    NormCycles(q);
    NormCycles(q1);
    ScaledCycles(p, s);
    ScaledCycles(NextAxes(p), NextAxes(s));
    hide Row, LocalMatrix, Rotate, TurnedX, Scaled, Norm2;
    RowsCycle(t, q, s, p);
    RowX(t, q, s, p);
    RowX(NextAxes(t), q1, NextAxes(s), NextAxes(p));
    RowX(NextAxes(NextAxes(t)), q2, NextAxes(NextAxes(s)), NextAxes(NextAxes(p)));
    RotateX(q, v);
    RotateX(q1, NextAxes(v));
    RotateX(q2, NextAxes(NextAxes(v)));
    RotateCycles(q, v);
    RotateCycles(q1, NextAxes(v));
  }

  lemma NormCycles(q: Quat)
    ensures Norm2(NextQuat(q)) == Norm2(q)
  {
  }

  lemma ScaledCycles(p: Vec3, s: Vec3)
    ensures Scaled(NextAxes(p), NextAxes(s)) == NextAxes(Scaled(p, s))
  {
  }

  // ----- one matrix after another ------------------------------------------------------------------------

  /** The bottom row leaves points points. */
  predicate Affine(m: Matrix) {
    At(m, 3, 0) == 0.0 && At(m, 3, 1) == 0.0 && At(m, 3, 2) == 0.0 && At(m, 3, 3) == 1.0
  }

  lemma LocalIsAffine(t: Vec3, q: Quat, s: Vec3)
    ensures Affine(LocalMatrix(t, q, s))
  {
  }

  /** Multiplying matrices is carrying points by one and then by the other. */
  lemma MultiplyCarries(a: Matrix, b: Matrix, p: Vec3)
    requires Affine(b)
    ensures Carry(Multiply(a, b), p) == Carry(a, Carry(b, p))
  {
    hide Row;
    RowOfProduct(a, b, 0, p);
    RowOfProduct(a, b, 1, p);
    RowOfProduct(a, b, 2, p);
  }

  /** Down a chain of nodes: a node's matrix in model space takes a point where its parent's
      takes what the node's own scaling, turn and move make of it. */
  lemma WorldCarries(nodes: seq<Node>, index: nat, steps: nat, p: Vec3)
    requires index < |nodes| && Rooted(Parents(nodes), index, steps)
    requires Norm2(Rotation(nodes[index])) == 1.0
    ensures var node := nodes[index];
      var local := Add(Rotate(Rotation(node), Scaled(p, Scaling(node))), Translation(node));
      if index !in Parents(nodes) then Carry(WorldMatrix(nodes, index, steps), p) == local
      else
        && steps > 0 && Parents(nodes)[index] < |nodes| && Rooted(Parents(nodes), Parents(nodes)[index], steps - 1)
        && Carry(WorldMatrix(nodes, index, steps), p)
           == Carry(WorldMatrix(nodes, Parents(nodes)[index], steps - 1), local)
  {
    hide Carry, LocalMatrix, Multiply, Parents, Rotate, Scaled, Affine;
    var t, q, s := Translation(nodes[index]), Rotation(nodes[index]), Scaling(nodes[index]);
    LocalMatrixCarries(t, q, s, p);
    LocalIsAffine(t, q, s);
    if index in Parents(nodes) {
      ParentsInside(nodes);
      MultiplyCarries(WorldMatrix(nodes, Parents(nodes)[index], steps - 1), LocalMatrix(t, q, s), p);
    }
  }

  lemma RowOfProduct(a: Matrix, b: Matrix, row: nat, p: Vec3)
    requires Affine(b) && row < 3
    ensures Row(Multiply(a, b), row, p, 1.0) == Row(a, row, Carry(b, p), 1.0)
  {
    hide *;
    ProductAt(a, b, row, 0);
    ProductAt(a, b, row, 1);
    ProductAt(a, b, row, 2);
    ProductAt(a, b, row, 3);
    RowIs(Multiply(a, b), row, p);
    RowIs(a, row, Carry(b, p));
    CarryIs(b, p);
    Combines(At(a, row, 0), At(a, row, 1), At(a, row, 2), At(a, row, 3),
             Vec3(At(b, 0, 0), At(b, 1, 0), At(b, 2, 0)), Vec3(At(b, 0, 1), At(b, 1, 1), At(b, 2, 1)),
             Vec3(At(b, 0, 2), At(b, 1, 2), At(b, 2, 2)), Vec3(At(b, 0, 3), At(b, 1, 3), At(b, 2, 3)), p);
  }

  lemma RowIs(m: Matrix, row: nat, p: Vec3)
    requires row < 4
    ensures Row(m, row, p, 1.0) == At(m, row, 0) * p.x + At(m, row, 1) * p.y + At(m, row, 2) * p.z + At(m, row, 3) * 1.0
  {
  }

  lemma CarryIs(b: Matrix, p: Vec3)
    ensures Carry(b, p).x == At(b, 0, 0) * p.x + At(b, 0, 1) * p.y + At(b, 0, 2) * p.z + At(b, 0, 3)
    ensures Carry(b, p).y == At(b, 1, 0) * p.x + At(b, 1, 1) * p.y + At(b, 1, 2) * p.z + At(b, 1, 3)
    ensures Carry(b, p).z == At(b, 2, 0) * p.x + At(b, 2, 1) * p.y + At(b, 2, 2) * p.z + At(b, 2, 3)
  {
  }

  lemma Combines(a0: real, a1: real, a2: real, a3: real, x: Vec3, y: Vec3, z: Vec3, w: Vec3, p: Vec3)
    ensures (a0 * x.x + a1 * x.y + a2 * x.z) * p.x + (a0 * y.x + a1 * y.y + a2 * y.z) * p.y
              + (a0 * z.x + a1 * z.y + a2 * z.z) * p.z + (a0 * w.x + a1 * w.y + a2 * w.z + a3) * 1.0 ==
            a0 * (x.x * p.x + y.x * p.y + z.x * p.z + w.x) + a1 * (x.y * p.x + y.y * p.y + z.y * p.z + w.y)
              + a2 * (x.z * p.x + y.z * p.y + z.z * p.z + w.z) + a3 * 1.0
  {
    Expands(a0, a1, a2, x.x, x.y, x.z, p.x);
    Expands(a0, a1, a2, y.x, y.y, y.z, p.y);
    Expands(a0, a1, a2, z.x, z.y, z.z, p.z);
    Collects(a0, x.x, y.x, z.x, w.x, p);
    Collects(a1, x.y, y.y, z.y, w.y, p);
    Collects(a2, x.z, y.z, z.z, w.z, p);
  }

  lemma ProductAt(a: Matrix, b: Matrix, row: nat, column: nat)
    requires row < 4 && column < 4 && Affine(b)
    ensures At(Multiply(a, b), row, column) ==
      At(a, row, 0) * At(b, 0, column) + At(a, row, 1) * At(b, 1, column) + At(a, row, 2) * At(b, 2, column)
      + if column == 3 then At(a, row, 3) else 0.0
  {
    assert (column * 4 + row) % 4 == row && (column * 4 + row) / 4 == column;
  }

  lemma Expands(a: real, b: real, c: real, x: real, y: real, z: real, k: real)
    ensures (a * x + b * y + c * z) * k == a * (x * k) + b * (y * k) + c * (z * k)
  {
    SpreadOver(a * x, b * y, c * z, k);
  }

  lemma Collects(a: real, x: real, y: real, z: real, w: real, p: Vec3)
    ensures a * (x * p.x + y * p.y + z * p.z + w) == a * (x * p.x) + a * (y * p.y) + a * (z * p.z) + a * w
  {
  }
}
