/** The mirror between right-handed and left-handed frames, M = diag(-1, 1, 1), and what
    it does to rotations, poses, triangles and skinning matrices. */
module Mirror {
  import opened Geometry
  import opened Vectors
  import opened Wrappers

  datatype Quat = Quat(x: real, y: real, z: real, w: real)

  const IDENTITY: Quat := Quat(0.0, 0.0, 0.0, 1.0)
  const ONES: Vec3 := Vec3(1.0, 1.0, 1.0)

  // ----- rotations --------------------------------------------------------------------------

  function QuatMultiply(a: Quat, b: Quat): Quat {
    Quat(Mixture(a.w, b.x, a.x, b.w, a.y, b.z, a.z, b.y),
         Mixture(a.w, b.y, a.y, b.w, a.z, b.x, a.x, b.z),
         Mixture(a.w, b.z, a.z, b.w, a.x, b.y, a.y, b.x),
         Scalar(a.w, b.w, a.x, b.x, a.y, b.y, a.z, b.z))
  }

  function Mixture(a: real, b: real, c: real, d: real, e: real, f: real, g: real, h: real): real {
    a * b + c * d + e * f - g * h
  }

  function Scalar(a: real, b: real, c: real, d: real, e: real, f: real, g: real, h: real): real {
    a * b - c * d - e * f - g * h
  }

  function Conjugate(q: Quat): Quat {
    Quat(-q.x, -q.y, -q.z, q.w)
  }

  function Negated(q: Quat): Quat {
    Quat(-q.x, -q.y, -q.z, -q.w)
  }

  function Pure(v: Vec3): Quat {
    Quat(v.x, v.y, v.z, 0.0)
  }

  function Axis(q: Quat): Vec3 {
    Vec3(q.x, q.y, q.z)
  }

  function Rotate(q: Quat, v: Vec3): Vec3 {
    Axis(QuatMultiply(QuatMultiply(q, Pure(v)), Conjugate(q)))
  }

  function Norm2(q: Quat): real {
    q.x * q.x + q.y * q.y + q.z * q.z + q.w * q.w
  }

  /** No value where the length is zero: the division there fails. */
  function Normalize(sqrt: real -> real, q: Quat): Option<Quat> {
    var length := sqrt(Norm2(q));
    if length == 0.0 then None else Some(Quat(q.x / length, q.y / length, q.z / length, q.w / length))
  }

  function MirrorVector(v: Vec3): Vec3 {
    Vec3(-v.x, v.y, v.z)
  }

  function MirrorQuat(q: Quat): Quat {
    Quat(q.x, -q.y, -q.z, q.w)
  }

  lemma SignsCancel(a: real, b: real)
    ensures (-a) * (-b) == a * b && (-a) * b == -(a * b) && a * (-b) == -(a * b)
  {
  }

  lemma MixtureSigns(a: real, b: real, c: real, d: real, e: real, f: real, g: real, h: real)
    ensures Mixture(a, b, c, d, -e, -f, -g, -h) == Mixture(a, b, c, d, e, f, g, h)
    ensures Mixture(a, -b, -c, d, -e, f, g, -h) == -Mixture(a, b, c, d, e, f, g, h)
    ensures Mixture(a, -b, -c, d, e, -f, -g, h) == -Mixture(a, b, c, d, e, f, g, h)
    ensures Scalar(a, b, c, d, -e, -f, -g, -h) == Scalar(a, b, c, d, e, f, g, h)
    ensures Mixture(a, -b, c, -d, e, -f, g, -h) == -Mixture(a, b, c, d, e, f, g, h)
    ensures Mixture(-a, b, -c, d, -e, f, -g, h) == -Mixture(a, b, c, d, e, f, g, h)
    ensures Scalar(a, -b, c, -d, e, -f, g, -h) == -Scalar(a, b, c, d, e, f, g, h)
    ensures Scalar(-a, b, -c, d, -e, f, -g, h) == -Scalar(a, b, c, d, e, f, g, h)
  {
  }

  /** Mirroring two rotations and then composing them is composing them and then mirroring. */
  lemma MirrorMultiply(a: Quat, b: Quat)
    ensures QuatMultiply(MirrorQuat(a), MirrorQuat(b)) == MirrorQuat(QuatMultiply(a, b))
  {
    hide Mixture, Scalar;
    MixtureSigns(a.w, b.x, a.x, b.w, a.y, b.z, a.z, b.y);
    MixtureSigns(a.w, b.y, a.y, b.w, a.z, b.x, a.x, b.z);
    MixtureSigns(a.w, b.z, a.z, b.w, a.x, b.y, a.y, b.x);
    MixtureSigns(a.w, b.w, a.x, b.x, a.y, b.y, a.z, b.z);
  }

  lemma NegatedMultiply(a: Quat, b: Quat)
    ensures QuatMultiply(a, Negated(b)) == Negated(QuatMultiply(a, b))
    ensures QuatMultiply(Negated(a), b) == Negated(QuatMultiply(a, b))
  {
    hide Mixture, Scalar;
    MixtureSigns(a.w, b.x, a.x, b.w, a.y, b.z, a.z, b.y);
    MixtureSigns(a.w, b.y, a.y, b.w, a.z, b.x, a.x, b.z);
    MixtureSigns(a.w, b.z, a.z, b.w, a.x, b.y, a.y, b.x);
    MixtureSigns(a.w, b.w, a.x, b.x, a.y, b.y, a.z, b.z);
  }

  /** A mirrored rotation turns the mirror image of a vector into the mirror image. */
  lemma MirrorRotate(q: Quat, v: Vec3)
    ensures Rotate(MirrorQuat(q), MirrorVector(v)) == MirrorVector(Rotate(q, v))
  {
    hide QuatMultiply;
    var p := Pure(v);
    assert Pure(MirrorVector(v)) == Negated(MirrorQuat(p));
    assert Conjugate(MirrorQuat(q)) == MirrorQuat(Conjugate(q));
    var turned := QuatMultiply(q, p);
    NegatedMultiply(MirrorQuat(q), MirrorQuat(p));
    MirrorMultiply(q, p);
    NegatedMultiply(MirrorQuat(turned), MirrorQuat(Conjugate(q)));
    MirrorMultiply(turned, Conjugate(q));
  }

  lemma MirrorNormalize(sqrt: real -> real, q: Quat)
    ensures Normalize(sqrt, q).None? ==> Normalize(sqrt, MirrorQuat(q)).None?
    ensures Normalize(sqrt, q).Some? ==> Normalize(sqrt, MirrorQuat(q)) == Some(MirrorQuat(Normalize(sqrt, q).value))
  {
    SignsCancel(q.y, q.y);
    SignsCancel(q.z, q.z);
    assert Norm2(MirrorQuat(q)) == Norm2(q);
    var length := sqrt(Norm2(q));
    if length != 0.0 {
      QuotientOfNegated(q.y, length);
      QuotientOfNegated(q.z, length);
    }
  }

  lemma QuotientOfNegated(a: real, b: real)
    requires b != 0.0
    ensures (-a) / b == -(a / b)
  {
    assert (a / b) * b == a;
    assert ((-a) / b) * b == -a;
    assert ((-a) / b + a / b) * b == 0.0;
  }

  lemma MirrorTwice(v: Vec3, q: Quat)
    ensures MirrorVector(MirrorVector(v)) == v && MirrorQuat(MirrorQuat(q)) == q
  {
  }

  // ----- triangles ---------------------------------------------------------------------------

  function Cross(a: Vec3, b: Vec3): Vec3 {
    Vec3(a.y * b.z - a.z * b.y, a.z * b.x - a.x * b.z, a.x * b.y - a.y * b.x)
  }

  function Normal(a: Vec3, b: Vec3, c: Vec3): Vec3 {
    Cross(Subtract(b, a), Subtract(c, a))
  }

  /** The mirror image of a triangle, wound the other way, faces where the mirror image of
      its normal points; wound as it was, it would face the opposite way. */
  lemma WindingKeepsNormal(a: Vec3, b: Vec3, c: Vec3)
    ensures Normal(MirrorVector(a), MirrorVector(c), MirrorVector(b)) == MirrorVector(Normal(a, b, c))
    ensures Normal(MirrorVector(a), MirrorVector(b), MirrorVector(c)) == Subtract(ZERO, MirrorVector(Normal(a, b, c)))
  {
    var u, v := Subtract(b, a), Subtract(c, a);
    hide Cross;
    assert Subtract(MirrorVector(b), MirrorVector(a)) == MirrorVector(u);
    assert Subtract(MirrorVector(c), MirrorVector(a)) == MirrorVector(v);
    MirrorCross(u, v);
    MirrorCross(v, u);
    SwapCross(u, v);
  }

  lemma MirrorCross(u: Vec3, v: Vec3)
    ensures Cross(MirrorVector(u), MirrorVector(v)) == Subtract(ZERO, MirrorVector(Cross(u, v)))
  {
    SignsCancel(u.x, v.y);
    SignsCancel(u.x, v.z);
    SignsCancel(u.z, v.x);
    SignsCancel(u.y, v.x);
  }

  lemma SwapCross(u: Vec3, v: Vec3)
    ensures Cross(v, u) == Subtract(ZERO, Cross(u, v))
  {
  }

  // ----- matrices, column by column ------------------------------------------------------------

  type Matrix = m: seq<real> | |m| == 16 witness seq(16, _ => 0.0)

  function At(m: Matrix, row: nat, column: nat): real
    requires row < 4 && column < 4
  {
    m[column * 4 + row]
  }

  function Entry(a: Matrix, b: Matrix, row: nat, column: nat): real
    requires row < 4 && column < 4
  {
    At(a, row, 0) * At(b, 0, column) + At(a, row, 1) * At(b, 1, column)
    + At(a, row, 2) * At(b, 2, column) + At(a, row, 3) * At(b, 3, column)
  }

  function Multiply(a: Matrix, b: Matrix): Matrix {
    seq(16, n requires 0 <= n < 16 => Entry(a, b, n % 4, n / 4))
  }

  /** Whether mirroring negates this component: its row or its column is X, not both. */
  predicate Mixed(component: nat) {
    (component % 4 == 0) != (component / 4 == 0)
  }

  /** M A M. */
  function MirrorMatrix(m: Matrix): Matrix {
    seq(16, n requires 0 <= n < 16 => if Mixed(n) then -m[n] else m[n])
  }

  lemma MirrorEntry(a: Matrix, b: Matrix, row: nat, column: nat)
    requires row < 4 && column < 4
    ensures Entry(MirrorMatrix(a), MirrorMatrix(b), row, column) ==
            if (row == 0) != (column == 0) then -Entry(a, b, row, column) else Entry(a, b, row, column)
  {
    hide At, MirrorMatrix;
    MirrorTerm(a, b, row, column, 0);
    MirrorTerm(a, b, row, column, 1);
    MirrorTerm(a, b, row, column, 2);
    MirrorTerm(a, b, row, column, 3);
  }

  lemma MirrorTerm(a: Matrix, b: Matrix, row: nat, column: nat, k: nat)
    requires row < 4 && column < 4 && k < 4
    ensures At(MirrorMatrix(a), row, k) * At(MirrorMatrix(b), k, column) ==
            if (row == 0) != (column == 0) then -(At(a, row, k) * At(b, k, column))
              else At(a, row, k) * At(b, k, column)
  {
    MirrorAt(a, row, k);
    MirrorAt(b, k, column);
    hide *;
    SignsCancel(At(a, row, k), At(b, k, column));
  }

  lemma MirrorAt(m: Matrix, row: nat, column: nat)
    requires row < 4 && column < 4
    ensures At(MirrorMatrix(m), row, column) == if (row == 0) != (column == 0) then -At(m, row, column)
      else At(m, row, column)
  {
  }

  lemma MirrorProduct(a: Matrix, b: Matrix)
    ensures Multiply(MirrorMatrix(a), MirrorMatrix(b)) == MirrorMatrix(Multiply(a, b))
  {
    hide Entry, At;
    forall n: nat | n < 16 ensures Multiply(MirrorMatrix(a), MirrorMatrix(b))[n] == MirrorMatrix(Multiply(a, b))[n] {
      hide MirrorMatrix;
      MirrorEntry(a, b, n % 4, n / 4);
      MirrorComponent(Multiply(a, b), n);
    }
  }

  lemma MirrorComponent(m: Matrix, n: nat)
    requires n < 16
    ensures MirrorMatrix(m)[n] == if Mixed(n) then -m[n] else m[n]
  {
  }

  // ----- local and skinning transforms --------------------------------------------------------------

  function Diagonal(a: real, b: real, s: real): real {
    (1.0 - 2.0 * (a * a + b * b)) * s
  }

  function Sum(a: real, b: real, c: real, d: real, s: real): real {
    2.0 * (a * b + c * d) * s
  }

  function Difference(a: real, b: real, c: real, d: real, s: real): real {
    2.0 * (a * b - c * d) * s
  }

  /** Scaled, then turned, then moved. */
  function LocalMatrix(t: Vec3, q: Quat, s: Vec3): Matrix {
    [Diagonal(q.y, q.z, s.x), Sum(q.x, q.y, q.z, q.w, s.x), Difference(q.x, q.z, q.y, q.w, s.x), 0.0,
     Difference(q.x, q.y, q.z, q.w, s.y), Diagonal(q.x, q.z, s.y), Sum(q.y, q.z, q.x, q.w, s.y), 0.0,
     Sum(q.x, q.z, q.y, q.w, s.z), Difference(q.y, q.z, q.x, q.w, s.z), Diagonal(q.x, q.y, s.z), 0.0,
     t.x, t.y, t.z, 1.0]
  }

  lemma TermSigns(a: real, b: real, c: real, d: real, s: real)
    ensures Diagonal(-a, -b, s) == Diagonal(a, b, s) && Diagonal(a, -b, s) == Diagonal(a, b, s)
    ensures Sum(a, -b, -c, d, s) == -Sum(a, b, c, d, s) && Difference(a, -b, -c, d, s) == -Difference(a, b, c, d, s)
    ensures Sum(-a, -b, c, d, s) == Sum(a, b, c, d, s) && Difference(-a, -b, c, d, s) == Difference(a, b, c, d, s)
  {
    SignsCancel(a, b);
    SignsCancel(c, d);
    SignsCancel(a, a);
    SignsCancel(b, b);
    SignsCancel(2.0 * (a * b + c * d), s);
    SignsCancel(2.0 * (a * b - c * d), s);
    Product(2.0 * (a * (-b) + (-c) * d), -(2.0 * (a * b + c * d)), s);
    Product(2.0 * (a * (-b) - (-c) * d), -(2.0 * (a * b - c * d)), s);
    Product(2.0 * ((-a) * (-b) + c * d), 2.0 * (a * b + c * d), s);
    Product(2.0 * ((-a) * (-b) - c * d), 2.0 * (a * b - c * d), s);
    Product(1.0 - 2.0 * ((-a) * (-a) + (-b) * (-b)), 1.0 - 2.0 * (a * a + b * b), s);
    Product(1.0 - 2.0 * (a * a + (-b) * (-b)), 1.0 - 2.0 * (a * a + b * b), s);
  }

  lemma Product(a: real, b: real, s: real)
    requires a == b
    ensures a * s == b * s
  {
  }

  /** A node's converted parts make up the mirror image of its matrix. */
  lemma MirrorLocal(t: Vec3, q: Quat, s: Vec3)
    ensures LocalMatrix(MirrorVector(t), MirrorQuat(q), s) == MirrorMatrix(LocalMatrix(t, q, s))
  {
    hide Diagonal, Sum, Difference;
    TermSigns(q.y, q.z, 0.0, 0.0, s.x);
    TermSigns(q.x, q.z, 0.0, 0.0, s.y);
    TermSigns(q.x, q.y, 0.0, 0.0, s.z);
    TermSigns(q.x, q.y, q.z, q.w, s.x);
    TermSigns(q.x, q.z, q.y, q.w, s.x);
    TermSigns(q.x, q.y, q.z, q.w, s.y);
    TermSigns(q.y, q.z, q.x, q.w, s.y);
    TermSigns(q.x, q.z, q.y, q.w, s.z);
    TermSigns(q.y, q.z, q.x, q.w, s.z);
    var a, b := LocalMatrix(MirrorVector(t), MirrorQuat(q), s), MirrorMatrix(LocalMatrix(t, q, s));
    assert a[0] == b[0] && a[1] == b[1] && a[2] == b[2] && a[3] == b[3];
    assert a[4] == b[4] && a[5] == b[5] && a[6] == b[6] && a[7] == b[7];
    assert a[8] == b[8] && a[9] == b[9] && a[10] == b[10] && a[11] == b[11];
    assert a[12] == b[12] && a[13] == b[13] && a[14] == b[14] && a[15] == b[15];
  }
}
