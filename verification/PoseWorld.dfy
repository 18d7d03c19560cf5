/** The rest pose in positions and rotations against the scene in matrices: what the tables
    hold is where the matrices put things, as long as no node further up than the parent is
    scaled. */
module PoseWorld {
  import opened Geometry
  import opened Vectors
  import opened Wrappers
  import opened Mirror
  import opened SkeletonPose
  import opened PoseMatrix

  // ----- rotations, one after another -------------------------------------------------------

  function Product(a: real, b: real): real {
    a * b
  }

  function Triple(a: real, b: real, c: real): real {
    (a * b) * c
  }

  lemma MixtureTimes(a: real, b: real, c: real, d: real, e: real, f: real, g: real, h: real, k: real)
    ensures var m := Mixture(a, b, c, d, e, f, g, h);
      && m == Product(a, b) + Product(c, d) + Product(e, f) - Product(g, h)
      && Product(m, k) == Triple(a, b, k) + Triple(c, d, k) + Triple(e, f, k) - Triple(g, h, k)
      && Product(k, m) == Triple(k, a, b) + Triple(k, c, d) + Triple(k, e, f) - Triple(k, g, h)
  {
  }

  lemma ScalarTimes(a: real, b: real, c: real, d: real, e: real, f: real, g: real, h: real, k: real)
    ensures var m := Scalar(a, b, c, d, e, f, g, h);
      && m == Product(a, b) - Product(c, d) - Product(e, f) - Product(g, h)
      && Product(m, k) == Triple(a, b, k) - Triple(c, d, k) - Triple(e, f, k) - Triple(g, h, k)
      && Product(k, m) == Triple(k, a, b) - Triple(k, c, d) - Triple(k, e, f) - Triple(k, g, h)
  {
  }

  lemma AssociatesX(a: Quat, b: Quat, c: Quat)
    ensures QuatMultiply(QuatMultiply(a, b), c).x == QuatMultiply(a, QuatMultiply(b, c)).x
  {
    hide Mixture, Scalar, Product, Triple;
    var l, r := QuatMultiply(a, b), QuatMultiply(b, c);
    MixtureTimes(l.w, c.x, l.x, c.w, l.y, c.z, l.z, c.y, 1.0);
    MixtureTimes(a.w, r.x, a.x, r.w, a.y, r.z, a.z, r.y, 1.0);
    ScalarTimes(a.w, b.w, a.x, b.x, a.y, b.y, a.z, b.z, c.x);
    MixtureTimes(a.w, b.x, a.x, b.w, a.y, b.z, a.z, b.y, c.w);
    MixtureTimes(a.w, b.y, a.y, b.w, a.z, b.x, a.x, b.z, c.z);
    MixtureTimes(a.w, b.z, a.z, b.w, a.x, b.y, a.y, b.x, c.y);
    MixtureTimes(b.w, c.x, b.x, c.w, b.y, c.z, b.z, c.y, a.w);
    ScalarTimes(b.w, c.w, b.x, c.x, b.y, c.y, b.z, c.z, a.x);
    MixtureTimes(b.w, c.z, b.z, c.w, b.x, c.y, b.y, c.x, a.y);
    MixtureTimes(b.w, c.y, b.y, c.w, b.z, c.x, b.x, c.z, a.z);
  }

  lemma AssociatesW(a: Quat, b: Quat, c: Quat)
    ensures QuatMultiply(QuatMultiply(a, b), c).w == QuatMultiply(a, QuatMultiply(b, c)).w
  {
    hide Mixture, Scalar, Product, Triple;
    var l, r := QuatMultiply(a, b), QuatMultiply(b, c);
    ScalarTimes(l.w, c.w, l.x, c.x, l.y, c.y, l.z, c.z, 1.0);
    ScalarTimes(a.w, r.w, a.x, r.x, a.y, r.y, a.z, r.z, 1.0);
    ScalarTimes(a.w, b.w, a.x, b.x, a.y, b.y, a.z, b.z, c.w);
    MixtureTimes(a.w, b.x, a.x, b.w, a.y, b.z, a.z, b.y, c.x);
    MixtureTimes(a.w, b.y, a.y, b.w, a.z, b.x, a.x, b.z, c.y);
    MixtureTimes(a.w, b.z, a.z, b.w, a.x, b.y, a.y, b.x, c.z);
    ScalarTimes(b.w, c.w, b.x, c.x, b.y, c.y, b.z, c.z, a.w);
    MixtureTimes(b.w, c.x, b.x, c.w, b.y, c.z, b.z, c.y, a.x);
    MixtureTimes(b.w, c.y, b.y, c.w, b.z, c.x, b.x, c.z, a.y);
    MixtureTimes(b.w, c.z, b.z, c.w, b.x, c.y, b.y, c.x, a.z);
  }

  /** Products of rotations may be bracketed either way. */
  lemma Associates(a: Quat, b: Quat, c: Quat)
    ensures QuatMultiply(QuatMultiply(a, b), c) == QuatMultiply(a, QuatMultiply(b, c))
  {
    hide QuatMultiply;
    AssociatesX(a, b, c);
    AssociatesW(a, b, c);
    var a1, b1, c1 := NextQuat(a), NextQuat(b), NextQuat(c);
    Cycled(a, b, c);
    AssociatesX(a1, b1, c1);
    Cycled(a1, b1, c1);
    AssociatesX(NextQuat(a1), NextQuat(b1), NextQuat(c1));
  }

  lemma Cycled(a: Quat, b: Quat, c: Quat)
    ensures QuatMultiply(QuatMultiply(NextQuat(a), NextQuat(b)), NextQuat(c))
      == NextQuat(QuatMultiply(QuatMultiply(a, b), c))
    ensures QuatMultiply(NextQuat(a), QuatMultiply(NextQuat(b), NextQuat(c)))
      == NextQuat(QuatMultiply(a, QuatMultiply(b, c)))
  {
    hide *;
    MultiplyCycles(a, b);
    MultiplyCycles(b, c);
    MultiplyCycles(QuatMultiply(a, b), c);
    MultiplyCycles(a, QuatMultiply(b, c));
  }

  lemma ConjugateTurns(a: Quat, b: Quat)
    ensures Conjugate(QuatMultiply(a, b)) == QuatMultiply(Conjugate(b), Conjugate(a))
  {
  }

  /** A number as a rotation's multiple. */
  function Number(k: real): Quat {
    Quat(0.0, 0.0, 0.0, k)
  }

  lemma NormIs(q: Quat)
    ensures QuatMultiply(q, Conjugate(q)) == Number(Norm2(q))
  {
  }

  lemma NumberPasses(q: Quat, k: real)
    ensures QuatMultiply(q, Number(k)) == QuatMultiply(Number(k), q)
    ensures QuatMultiply(Number(1.0), q) == q
  {
  }

  lemma NumbersMultiply(k: real, l: real)
    ensures QuatMultiply(Number(k), Number(l)) == Number(k * l)
  {
  }

  /** Lengths multiply. */
  lemma NormMultiplies(a: Quat, b: Quat)
    ensures Norm2(QuatMultiply(a, b)) == Norm2(a) * Norm2(b)
  {
    hide QuatMultiply, Conjugate, Norm2;
    var m, n := Norm2(a), Norm2(b);
    calc {
      Number(Norm2(QuatMultiply(a, b)));
    ==  { NormIs(QuatMultiply(a, b)); ConjugateTurns(a, b); }
      QuatMultiply(QuatMultiply(a, b), QuatMultiply(Conjugate(b), Conjugate(a)));
    ==  { Sandwiched(a, b, Number(1.0)); NumberPasses(b, 1.0); NumberPasses(QuatMultiply(a, b), 1.0); }
      QuatMultiply(QuatMultiply(a, QuatMultiply(b, Conjugate(b))), Conjugate(a));
    ==  { NormIs(b); }
      QuatMultiply(QuatMultiply(a, Number(n)), Conjugate(a));
    ==  { NumberPasses(a, n); }
      QuatMultiply(QuatMultiply(Number(n), a), Conjugate(a));
    ==  { Associates(Number(n), a, Conjugate(a)); NormIs(a); }
      QuatMultiply(Number(n), Number(m));
    ==  { NumbersMultiply(n, m); }
      Number(n * m);
    }
  }

  /** What two rotations do about something is what one does about what the other does. */
  lemma Sandwiched(a: Quat, b: Quat, v: Quat)
    ensures QuatMultiply(QuatMultiply(QuatMultiply(a, b), v), QuatMultiply(Conjugate(b), Conjugate(a)))
      == QuatMultiply(QuatMultiply(a, QuatMultiply(QuatMultiply(b, v), Conjugate(b))), Conjugate(a))
  {
    hide *;
    Associates(a, b, v);
    var bv := QuatMultiply(b, v);
    Associates(QuatMultiply(a, bv), Conjugate(b), Conjugate(a));
    Associates(a, bv, Conjugate(b));
  }

  /** A rotated vector is a vector. */
  lemma StaysPure(q: Quat, v: Vec3)
    ensures QuatMultiply(QuatMultiply(q, Pure(v)), Conjugate(q)) == Pure(Rotate(q, v))
  {
  }

  /** Turning by a product is turning by one and then by the other. */
  lemma RotateTwice(a: Quat, b: Quat, v: Vec3)
    ensures Rotate(QuatMultiply(a, b), v) == Rotate(a, Rotate(b, v))
  {
    hide QuatMultiply, Conjugate;
    ConjugateTurns(a, b);
    Sandwiched(a, b, Pure(v));
    StaysPure(b, v);
  }

  lemma RotateAdds(q: Quat, u: Vec3, v: Vec3)
    ensures Rotate(q, Add(u, v)) == Add(Rotate(q, u), Rotate(q, v))
  {
    hide QuatMultiply;
    MultiplyAdds(q, Pure(u), Pure(v));
    AddsMultiply(QuatMultiply(q, Pure(u)), QuatMultiply(q, Pure(v)), Conjugate(q));
  }

  function Plus(a: Quat, b: Quat): Quat {
    Quat(a.x + b.x, a.y + b.y, a.z + b.z, a.w + b.w)
  }

  lemma MultiplyAdds(q: Quat, a: Quat, b: Quat)
    ensures QuatMultiply(q, Plus(a, b)) == Plus(QuatMultiply(q, a), QuatMultiply(q, b))
  {
  }

  lemma AddsMultiply(a: Quat, b: Quat, q: Quat)
    ensures QuatMultiply(Plus(a, b), q) == Plus(QuatMultiply(a, q), QuatMultiply(b, q))
  {
  }

  lemma UnitNormalized(sqrt: real -> real, q: Quat)
    requires IsSqrt(sqrt) && Norm2(q) == 1.0
    ensures Normalize(sqrt, q) == Some(q)
  {
    SquareOrder(sqrt(1.0), 1.0);
  }

  // ----- down the tree ----------------------------------------------------------------------------

  predicate UnitTurns(nodes: seq<Node>) {
    forall k :: 0 <= k < |nodes| ==> Norm2(Rotation(nodes[k])) == 1.0
  }

  /** No node further up is scaled. */
  predicate UnscaledAbove(nodes: seq<Node>, index: nat, steps: nat)
    requires index < |nodes| && Rooted(Parents(nodes), index, steps)
    decreases steps
  {
    index in Parents(nodes) ==> (
      ParentsInside(nodes);
      Scaling(nodes[Parents(nodes)[index]]) == ONES && UnscaledAbove(nodes, Parents(nodes)[index], steps - 1))
  }

  /** Where nothing above a node is scaled, its matrix is its pose: scale, turn by what the
      table holds, move to where the table has it. */
  lemma {:induction false} PoseIsMatrix(sqrt: real -> real, nodes: seq<Node>, index: nat, steps: nat, p: Vec3)
    requires IsSqrt(sqrt) && UnitTurns(nodes)
    requires index < |nodes| && Rooted(Parents(nodes), index, steps) && UnscaledAbove(nodes, index, steps)
    ensures var placed := Pose(sqrt, nodes, index, steps);
      && placed.Some? && Norm2(placed.value.rotation) == 1.0
      && Carry(WorldMatrix(nodes, index, steps), p)
         == Add(Rotate(placed.value.rotation, Scaled(p, Scaling(nodes[index]))), placed.value.position)
    decreases steps
  {
    hide Rotate, Norm2, Normalize, Carry, WorldMatrix, QuatMultiply, Parents, Scaling, Rotation, Translation;
    var node := nodes[index];
    var t, q, v := Translation(node), Rotation(node), Scaled(p, Scaling(node));
    WorldCarries(nodes, index, steps, p);
    UnitNormalized(sqrt, q);
    if index in Parents(nodes) {
      ParentsInside(nodes);
      var parent := Parents(nodes)[index];
      PoseIsMatrix(sqrt, nodes, parent, steps - 1, Add(Rotate(q, v), t));
      var above := Pose(sqrt, nodes, parent, steps - 1).value;
      NormMultiplies(above.rotation, q);
      UnitNormalized(sqrt, QuatMultiply(above.rotation, q));
      RotateTwice(above.rotation, q, v);
      RotateAdds(above.rotation, Rotate(q, v), t);
    }
  }

  // ----- where the tables are right ---------------------------------------------------------------

  /** The table has the node where its matrix puts it. */
  ghost predicate PlacedRight(sqrt: real -> real, nodes: seq<Node>, index: nat, steps: nat)
    requires index < |nodes| && Rooted(Parents(nodes), index, steps)
  {
    var placed := Pose(sqrt, nodes, index, steps);
    placed.Some? && placed.value.position == Carry(WorldMatrix(nodes, index, steps), ZERO)
  }

  predicate SameShape(a: seq<Node>, b: seq<Node>) {
    |a| == |b| && forall k :: 0 <= k < |a| ==> a[k].children == b[k].children && a[k].scale == b[k].scale
  }

  /** However the nodes are moved and turned. */
  ghost predicate AlwaysRight(sqrt: real -> real, nodes: seq<Node>) {
    forall other: seq<Node>, index: nat, steps: nat ::
      SameShape(nodes, other) && UnitTurns(other) && index < |other| && Rooted(Parents(other), index, steps) ==>
      PlacedRight(sqrt, other, index, steps)
  }

  /** The parent of its parent is scaled. */
  predicate UnderScaled(nodes: seq<Node>, index: nat) {
    var parents := Parents(nodes);
    && index < |nodes| && index in parents && parents[index] in parents
    && (ParentsInside(nodes); Scaling(nodes[parents[parents[index]]]) != ONES)
  }

  /** Nothing that has grandchildren is scaled. */
  predicate OnlyParentsScaled(nodes: seq<Node>) {
    forall index: nat | index < |nodes| :: !UnderScaled(nodes, index)
  }

  predicate NoneCollapsed(nodes: seq<Node>) {
    forall k :: 0 <= k < |nodes| ==>
      Scaling(nodes[k]).x != 0.0 && Scaling(nodes[k]).y != 0.0 && Scaling(nodes[k]).z != 0.0
  }

  // ----- right where nothing above the parent is scaled ---------------------------------------------

  lemma {:induction false} SameFamily(a: seq<Node>, b: seq<Node>)
    requires SameShape(a, b)
    ensures Parents(a) == Parents(b)
  {
    if a != [] {
      SameFamily(a[..|a| - 1], b[..|b| - 1]);
    }
  }

  lemma SameScaledAbove(a: seq<Node>, b: seq<Node>)
    requires SameShape(a, b)
    ensures OnlyParentsScaled(a) <==> OnlyParentsScaled(b)
  {
    SameFamily(a, b);
    hide Parents;
    ParentsInside(a);
    forall index: nat | index < |a| ensures UnderScaled(a, index) <==> UnderScaled(b, index) {
    }
  }

  lemma {:induction false} NothingAbove(nodes: seq<Node>, index: nat, steps: nat)
    requires OnlyParentsScaled(nodes)
    requires index < |nodes| && Rooted(Parents(nodes), index, steps) && index in Parents(nodes)
    ensures Parents(nodes)[index] < |nodes| && UnscaledAbove(nodes, Parents(nodes)[index], steps - 1)
    decreases steps
  {
    hide Parents, Scaling;
    ParentsInside(nodes);
    var parent := Parents(nodes)[index];
    assert !UnderScaled(nodes, index);
    if parent in Parents(nodes) {
      NothingAbove(nodes, parent, steps - 1);
    }
  }

  lemma ZeroStays(q: Quat, s: Vec3)
    ensures Scaled(ZERO, s) == ZERO && Rotate(q, ZERO) == ZERO
  {
  }

  lemma AddsNothing(v: Vec3)
    ensures Add(ZERO, v) == v && Add(v, ZERO) == v
  {
  }

  lemma AddCommutes(u: Vec3, v: Vec3)
    ensures Add(u, v) == Add(v, u)
  {
  }

  lemma PlacedAsMatrix(sqrt: real -> real, nodes: seq<Node>, index: nat, steps: nat)
    requires IsSqrt(sqrt) && UnitTurns(nodes) && OnlyParentsScaled(nodes)
    requires index < |nodes| && Rooted(Parents(nodes), index, steps)
    ensures PlacedRight(sqrt, nodes, index, steps)
  {
    hide Rotate, Norm2, Normalize, Carry, WorldMatrix, QuatMultiply, Parents, Scaling, Rotation, Translation, Scaled;
    hide OnlyParentsScaled, UnscaledAbove, Add;
    var node := nodes[index];
    WorldCarries(nodes, index, steps, ZERO);
    ZeroStays(Rotation(node), Scaling(node));
    AddsNothing(Translation(node));
    UnitNormalized(sqrt, Rotation(node));
    if index in Parents(nodes) {
      ParentsInside(nodes);
      var parent := Parents(nodes)[index];
      NothingAbove(nodes, index, steps);
      PoseIsMatrix(sqrt, nodes, parent, steps - 1, Translation(node));
      var above := Pose(sqrt, nodes, parent, steps - 1).value;
      NormMultiplies(above.rotation, Rotation(node));
      UnitNormalized(sqrt, QuatMultiply(above.rotation, Rotation(node)));
      AddCommutes(above.position, Rotate(above.rotation, Scaled(Translation(node), Scaling(nodes[parent]))));
    }
  }

  // ----- wrong under a scaled grandparent -----------------------------------------------------------

  /** Of scaled grandparents one further up is the topmost. */
  lemma TopScaled(nodes: seq<Node>, index: nat) returns (found: nat, steps: nat)
    requires Forest(nodes) && UnderScaled(nodes, index)
    ensures UnderScaled(nodes, found) && Parents(nodes)[Parents(nodes)[found]] < |nodes|
    ensures Rooted(Parents(nodes), Parents(nodes)[Parents(nodes)[found]], steps)
    ensures UnscaledAbove(nodes, Parents(nodes)[Parents(nodes)[found]], steps)
  {
    ParentsInside(nodes);
    InForest(nodes, Parents(nodes)[Parents(nodes)[index]]);
    found, steps := Topmost(nodes, index, |nodes|);
  }

  lemma {:induction false} Topmost(nodes: seq<Node>, index: nat, left: nat) returns (found: nat, steps: nat)
    requires index < |nodes| && index in Parents(nodes) && Parents(nodes)[index] in Parents(nodes)
    requires Parents(nodes)[Parents(nodes)[index]] < |nodes|
    requires Rooted(Parents(nodes), Parents(nodes)[Parents(nodes)[index]], left)
    requires UnderScaled(nodes, index) || !UnscaledAbove(nodes, Parents(nodes)[Parents(nodes)[index]], left)
    ensures UnderScaled(nodes, found) && Parents(nodes)[Parents(nodes)[found]] < |nodes|
    ensures Rooted(Parents(nodes), Parents(nodes)[Parents(nodes)[found]], steps)
    ensures UnscaledAbove(nodes, Parents(nodes)[Parents(nodes)[found]], steps)
    decreases left
  {
    hide Parents, Scaling;
    ParentsInside(nodes);
    if UnscaledAbove(nodes, Parents(nodes)[Parents(nodes)[index]], left) {
      found, steps := index, left;
    } else {
      found, steps := Topmost(nodes, Parents(nodes)[index], left - 1);
    }
  }

  /** Nobody turned, and nobody moved but one. */
  function Moved(nodes: seq<Node>, index: nat): (r: seq<Node>)
    ensures SameShape(nodes, r)
  {
    seq(|nodes|, k requires 0 <= k < |nodes| =>
      Node(Some(if k == index then ONES else ZERO), None, nodes[k].scale, nodes[k].children, nodes[k].matrix))
  }

  lemma IdentityTurns(v: Vec3)
    ensures Rotate(IDENTITY, v) == v && Norm2(IDENTITY) == 1.0
  {
    assert IDENTITY == Number(1.0) && Conjugate(IDENTITY) == Number(1.0);
    hide QuatMultiply;
    NumberPasses(Pure(v), 1.0);
  }

  /** A rotation can be undone. */
  lemma RotateTellsApart(q: Quat, u: Vec3, v: Vec3)
    requires Norm2(q) == 1.0 && Rotate(q, u) == Rotate(q, v)
    ensures u == v
  {
    RotateBack(q, u);
    RotateBack(q, v);
  }

  lemma RotateBack(q: Quat, v: Vec3)
    requires Norm2(q) == 1.0
    ensures Rotate(Conjugate(q), Rotate(q, v)) == v
  {
    NormIs(Conjugate(q));
    ConjugateTwice(q);
    hide Rotate, QuatMultiply, Norm2, Conjugate;
    RotateTwice(Conjugate(q), q, v);
    IdentityTurns(v);
  }

  lemma ConjugateTwice(q: Quat)
    ensures Conjugate(Conjugate(q)) == q && Norm2(Conjugate(q)) == Norm2(q)
  {
  }

  lemma ScalesApart(s: Vec3, up: Vec3)
    requires s.x != 0.0 && s.y != 0.0 && s.z != 0.0 && up != ONES
    ensures Scaled(Scaled(ONES, s), up) != Scaled(ONES, s)
  {
  }

  lemma {:induction false} SameAbove(a: seq<Node>, b: seq<Node>, index: nat, steps: nat)
    requires SameShape(a, b) && index < |a| && Rooted(Parents(a), index, steps) && UnscaledAbove(a, index, steps)
    ensures Rooted(Parents(b), index, steps) && UnscaledAbove(b, index, steps)
    decreases steps
  {
    SameFamily(a, b);
    hide Parents;
    ParentsInside(a);
    if index in Parents(a) {
      SameAbove(a, b, Parents(a)[index], steps - 1);
    }
  }

  lemma MovedTurns(nodes: seq<Node>, index: nat)
    requires NoneCollapsed(nodes)
    ensures UnitTurns(Moved(nodes, index)) && NoneCollapsed(Moved(nodes, index))
  {
    IdentityTurns(ZERO);
    hide Norm2, Rotate;
  }

  lemma MovedAt(nodes: seq<Node>, index: nat, k: nat)
    requires k < |nodes|
    ensures var node := Moved(nodes, index)[k];
      && Rotation(node) == IDENTITY && Translation(node) == (if k == index then ONES else ZERO)
      && Scaling(node) == Scaling(nodes[k])
  {
  }

  lemma MovedAlone(nodes: seq<Node>, index: nat, steps: nat)
    requires UnderScaled(nodes, index)
    requires Parents(nodes)[Parents(nodes)[index]] < |nodes|
    requires Rooted(Parents(nodes), Parents(nodes)[Parents(nodes)[index]], steps)
    ensures OneOut(Moved(nodes, index), index)
  {
    SameFamily(nodes, Moved(nodes, index));
    hide Parents, Moved, Scaling, Rotation, Translation;
    ParentsInside(nodes);
    if Parents(nodes)[index] == index {
      NotItsOwn(Parents(nodes), Parents(nodes)[Parents(nodes)[index]], steps);
    }
    MovedAt(nodes, index, index);
    MovedAt(nodes, index, Parents(nodes)[index]);
    MovedAt(nodes, index, Parents(nodes)[Parents(nodes)[index]]);
  }

  lemma WrongUnderScaled(sqrt: real -> real, nodes: seq<Node>, index: nat, steps: nat)
    requires IsSqrt(sqrt) && NoneCollapsed(nodes)
    requires UnderScaled(nodes, index) && Parents(nodes)[Parents(nodes)[index]] < |nodes|
    requires Rooted(Parents(nodes), Parents(nodes)[Parents(nodes)[index]], steps)
    requires UnscaledAbove(nodes, Parents(nodes)[Parents(nodes)[index]], steps)
    ensures !AlwaysRight(sqrt, nodes)
  {
    var other := Moved(nodes, index);
    SameFamily(nodes, other);
    hide Parents, OneOut, UnitTurns, NoneCollapsed, SameShape, UnderScaled, Moved, PlacedRight;
    SameAbove(nodes, other, Parents(nodes)[Parents(nodes)[index]], steps);
    MovedTurns(nodes, index);
    MovedAlone(nodes, index, steps);
    Lost(sqrt, other, index, steps);
    assert !PlacedRight(sqrt, other, index, steps + 2);
  }

  /** A node moved, its parent not, neither turned, and a scale above them. */
  predicate OneOut(nodes: seq<Node>, index: nat) {
    var parents := Parents(nodes);
    && index < |nodes| && index in parents && parents[index] in parents
    && parents[index] < |nodes| && parents[parents[index]] < |nodes|
    && Rotation(nodes[index]) == Rotation(nodes[parents[index]]) == IDENTITY
    && Translation(nodes[index]) == ONES && Translation(nodes[parents[index]]) == ZERO
    && Scaling(nodes[parents[parents[index]]]) != ONES
  }

  /** The grandparent's scale is in the matrix and not in the table. */
  lemma Lost(sqrt: real -> real, nodes: seq<Node>, index: nat, steps: nat)
    requires IsSqrt(sqrt) && UnitTurns(nodes) && NoneCollapsed(nodes) && OneOut(nodes, index)
    requires Rooted(Parents(nodes), Parents(nodes)[Parents(nodes)[index]], steps)
    requires UnscaledAbove(nodes, Parents(nodes)[Parents(nodes)[index]], steps)
    ensures Rooted(Parents(nodes), index, steps + 2) && !PlacedRight(sqrt, nodes, index, steps + 2)
  {
    hide Rotate, Norm2, Normalize, Carry, WorldMatrix, QuatMultiply, Parents, Scaling, Rotation, Translation, Scaled;
    hide UnscaledAbove, Add, UnitTurns;
    ParentsInside(nodes);
    var parent := Parents(nodes)[index];
    var up := Parents(nodes)[parent];
    var s, v := Scaling(nodes[parent]), Scaled(ONES, Scaling(nodes[parent]));
    MatrixBelow(nodes, index, steps);
    PoseIsMatrix(sqrt, nodes, up, steps, v);
    var above := Pose(sqrt, nodes, up, steps).value;
    PoseBelow(sqrt, nodes, index, steps, above);
    if PlacedRight(sqrt, nodes, index, steps + 2) {
      AddTellsApart(above.position, Rotate(above.rotation, Scaled(v, Scaling(nodes[up]))), Rotate(above.rotation, v));
      RotateTellsApart(above.rotation, Scaled(v, Scaling(nodes[up])), v);
      ScalesApart(s, Scaling(nodes[up]));
    }
  }

  lemma AddTellsApart(p: Vec3, u: Vec3, v: Vec3)
    requires Add(u, p) == Add(p, v)
    ensures u == v
  {
  }

  lemma {:induction false} NotItsOwn(parents: map<nat, nat>, index: nat, steps: nat)
    requires Rooted(parents, index, steps) && index in parents
    ensures parents[index] != index
    decreases steps
  {
    if parents[index] == index {
      NotItsOwn(parents, index, steps - 1);
    }
  }

  /** In the matrix, what is between the node and its grandparent is the parent's scale alone. */
  lemma MatrixBelow(nodes: seq<Node>, index: nat, steps: nat)
    requires OneOut(nodes, index) && Rooted(Parents(nodes), Parents(nodes)[Parents(nodes)[index]], steps)
    ensures Rooted(Parents(nodes), index, steps + 2)
    ensures Carry(WorldMatrix(nodes, index, steps + 2), ZERO)
      == Carry(WorldMatrix(nodes, Parents(nodes)[Parents(nodes)[index]], steps),
               Scaled(ONES, Scaling(nodes[Parents(nodes)[index]])))
  {
    hide Rotate, Norm2, Carry, WorldMatrix, QuatMultiply, Parents, Scaling, Rotation, Translation, Scaled, Add;
    var parent := Parents(nodes)[index];
    assert Rooted(Parents(nodes), parent, steps + 1);
    IdentityTurns(ZERO);
    WorldCarries(nodes, index, steps + 2, ZERO);
    ZeroStays(IDENTITY, Scaling(nodes[index]));
    AddsNothing(ONES);
    WorldCarries(nodes, parent, steps + 1, ONES);
    IdentityTurns(Scaled(ONES, Scaling(nodes[parent])));
    AddsNothing(Scaled(ONES, Scaling(nodes[parent])));
  }

  /** And in the table the grandparent's scale is not there. */
  lemma PoseBelow(sqrt: real -> real, nodes: seq<Node>, index: nat, steps: nat, above: Placed)
    requires IsSqrt(sqrt) && OneOut(nodes, index)
    requires Rooted(Parents(nodes), Parents(nodes)[Parents(nodes)[index]], steps) && Norm2(above.rotation) == 1.0
    requires Pose(sqrt, nodes, Parents(nodes)[Parents(nodes)[index]], steps) == Some(above)
    ensures Rooted(Parents(nodes), index, steps + 2)
    ensures var placed := Pose(sqrt, nodes, index, steps + 2);
      placed.Some? && placed.value.position
        == Add(above.position, Rotate(above.rotation, Scaled(ONES, Scaling(nodes[Parents(nodes)[index]]))))
  {
    hide Rotate, Norm2, Normalize, QuatMultiply, Parents, Scaling, Rotation, Translation, Scaled, Add;
    ParentsInside(nodes);
    var parent := Parents(nodes)[index];
    assert Rooted(Parents(nodes), parent, steps + 1);
    TurnsByIdentity(above.rotation);
    UnitNormalized(sqrt, above.rotation);
    ZeroStays(above.rotation, Scaling(nodes[Parents(nodes)[parent]]));
    AddsNothing(above.position);
    assert Pose(sqrt, nodes, parent, steps + 1) == Some(above);
  }

  lemma TurnsByIdentity(q: Quat)
    ensures QuatMultiply(q, IDENTITY) == q
  {
  }

  // ----- exactly there ------------------------------------------------------------------------------

  /** The tables have every node where the matrices put it, however nodes are moved and turned,
      if and only if nothing that has grandchildren is scaled. */
  lemma RightWithoutScaledGrandparents(sqrt: real -> real, nodes: seq<Node>)
    requires IsSqrt(sqrt) && Forest(nodes) && NoneCollapsed(nodes)
    ensures AlwaysRight(sqrt, nodes) <==> OnlyParentsScaled(nodes)
  {
    hide PlacedRight, UnderScaled, Parents, Rooted, Forest, NoneCollapsed, SameShape;
    if OnlyParentsScaled(nodes) {
      forall other: seq<Node>, index: nat, steps: nat
        | SameShape(nodes, other) && UnitTurns(other) && index < |other| && Rooted(Parents(other), index, steps)
        ensures PlacedRight(sqrt, other, index, steps)
      {
        SameFamily(nodes, other);
        SameScaledAbove(nodes, other);
        PlacedAsMatrix(sqrt, other, index, steps);
      }
    } else {
      var index: nat :| index < |nodes| && UnderScaled(nodes, index);
      var found, steps := TopScaled(nodes, index);
      WrongUnderScaled(sqrt, nodes, found, steps);
    }
  }
}
