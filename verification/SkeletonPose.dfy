/** The model-space rest pose of a node list, solved from parents down, and the pose of the
    same nodes converted to the other handedness. */
module SkeletonPose {
  import opened Geometry
  import opened Vectors
  import opened Mirror
  import opened Wrappers

  /** A `matrix` node has no parts of its own. */
  datatype Node = Node(translation: Option<Vec3>, rotation: Option<Quat>, scale: Option<Vec3>, children: seq<nat>,
                       matrix: bool)

  datatype Placed = Placed(position: Vec3, rotation: Quat)

  function Translation(node: Node): Vec3 {
    if node.translation.Some? then node.translation.value else ZERO
  }

  function Rotation(node: Node): Quat {
    if node.rotation.Some? then node.rotation.value else IDENTITY
  }

  function Scaling(node: Node): Vec3 {
    if node.scale.Some? then node.scale.value else ONES
  }

  /** The last node to list a child is its parent. */
  function Parents(nodes: seq<Node>): map<nat, nat> {
    if nodes == [] then map[]
    else Adopt(Parents(nodes[..|nodes| - 1]), nodes[|nodes| - 1].children, |nodes| - 1)
  }

  function Adopt(parents: map<nat, nat>, children: seq<nat>, parent: nat): map<nat, nat> {
    if children == [] then parents
    else Adopt(parents, children[..|children| - 1], parent)[children[|children| - 1] := parent]
  }

  lemma {:induction false} ParentsInside(nodes: seq<Node>)
    ensures forall k :: k in Parents(nodes) ==> Parents(nodes)[k] < |nodes|
  {
    if nodes != [] {
      ParentsInside(nodes[..|nodes| - 1]);
      AdoptsOnly(Parents(nodes[..|nodes| - 1]), nodes[|nodes| - 1].children, |nodes| - 1);
    }
  }

  lemma {:induction false} AdoptsOnly(parents: map<nat, nat>, children: seq<nat>, parent: nat)
    ensures forall k :: k in Adopt(parents, children, parent) ==>
      Adopt(parents, children, parent)[k] == parent
        || (k in parents && Adopt(parents, children, parent)[k] == parents[k])
  {
    if children != [] {
      AdoptsOnly(parents, children[..|children| - 1], parent);
    }
  }

  /** A root is reached within this many steps; without one, solving would never end. */
  predicate Rooted(parents: map<nat, nat>, index: nat, steps: nat)
    decreases steps
  {
    index !in parents || (steps > 0 && Rooted(parents, parents[index], steps - 1))
  }

  predicate Forest(nodes: seq<Node>) {
    forall index: nat | index < |nodes| :: Rooted(Parents(nodes), index, |nodes|)
  }

  lemma InForest(nodes: seq<Node>, index: nat)
    requires Forest(nodes) && index < |nodes|
    ensures Rooted(Parents(nodes), index, |nodes|)
  {
  }

  function Scaled(v: Vec3, s: Vec3): Vec3 {
    Vec3(v.x * s.x, v.y * s.y, v.z * s.z)
  }

  /** No value where a rotation has no length to divide by. */
  function Pose(sqrt: real -> real, nodes: seq<Node>, index: nat, steps: nat): Option<Placed>
    requires index < |nodes| && Rooted(Parents(nodes), index, steps)
    decreases steps
  {
    var node := nodes[index];
    if index !in Parents(nodes) then
      match Normalize(sqrt, Rotation(node))
      case None => None
      case Some(q) => Some(Placed(Translation(node), q))
    else
      ParentsInside(nodes);
      var parent := Parents(nodes)[index];
      match Pose(sqrt, nodes, parent, steps - 1)
      case None => None
      case Some(above) => Below(sqrt, above, Scaling(nodes[parent]), node)
  }

  function Below(sqrt: real -> real, above: Placed, scale: Vec3, node: Node): Option<Placed> {
    match Normalize(sqrt, QuatMultiply(above.rotation, Rotation(node)))
    case None => None
    case Some(q) => Some(Placed(Add(above.position, Rotate(above.rotation, Scaled(Translation(node), scale))), q))
  }

  /** However many steps are allowed, the pose is the same. */
  lemma {:induction false} StepsDoNotMatter(sqrt: real -> real, nodes: seq<Node>, index: nat, m: nat, n: nat)
    requires index < |nodes| && Rooted(Parents(nodes), index, m) && Rooted(Parents(nodes), index, n)
    ensures Pose(sqrt, nodes, index, m) == Pose(sqrt, nodes, index, n)
    decreases m
  {
    if index in Parents(nodes) {
      ParentsInside(nodes);
      StepsDoNotMatter(sqrt, nodes, Parents(nodes)[index], m - 1, n - 1);
    }
  }

  // ----- the conversion -----------------------------------------------------------------------

  function ConvertedNode(node: Node): Node {
    node.(translation := if node.translation.Some? then Some(MirrorVector(node.translation.value)) else None,
          rotation := if node.rotation.Some? then Some(MirrorQuat(node.rotation.value)) else None)
  }

  function Converted(nodes: seq<Node>): (r: seq<Node>)
    ensures |r| == |nodes|
  {
    seq(|nodes|, i requires 0 <= i < |nodes| => ConvertedNode(nodes[i]))
  }

  /** Converting back gives the nodes that were converted. */
  lemma ConvertedTwice(nodes: seq<Node>)
    ensures Converted(Converted(nodes)) == nodes
  {
    hide ConvertedNode;
    forall i | 0 <= i < |nodes| ensures ConvertedNode(ConvertedNode(nodes[i])) == nodes[i] {
      NodeTwice(nodes[i]);
    }
  }

  lemma NodeTwice(node: Node)
    ensures ConvertedNode(ConvertedNode(node)) == node
  {
    hide MirrorVector, MirrorQuat;
    MirrorTwice(Translation(node), Rotation(node));
  }

  method ConvertNodes(nodes: array<Node>) returns (done: bool)
    modifies nodes
    ensures done <==> forall i :: 0 <= i < nodes.Length ==> !old(nodes[i]).matrix
    ensures done ==> nodes[..] == Converted(old(nodes[..]))
  {
    for i := 0 to nodes.Length
      invariant forall k :: 0 <= k < i ==> !old(nodes[k]).matrix && nodes[k] == ConvertedNode(old(nodes[k]))
      invariant forall k :: i <= k < nodes.Length ==> nodes[k] == old(nodes[k])
    {
      var node := nodes[i];
      if node.matrix {
        return false;
      }
      if node.translation.Some? {
        node := node.(translation := Some(MirrorVector(node.translation.value)));
      }
      if node.rotation.Some? {
        var q := node.rotation.value;
        node := node.(rotation := Some(Quat(q.x, -q.y, -q.z, q.w)));
      }
      nodes[i] := node;
    }
    return true;
  }

  lemma {:induction false} SameParents(nodes: seq<Node>)
    ensures Parents(Converted(nodes)) == Parents(nodes)
  {
    if nodes != [] {
      assert Converted(nodes)[..|nodes| - 1] == Converted(nodes[..|nodes| - 1]);
      SameParents(nodes[..|nodes| - 1]);
    }
  }

  lemma ConvertedAt(nodes: seq<Node>, index: nat)
    requires index < |nodes|
    ensures Converted(nodes)[index] == ConvertedNode(nodes[index])
  {
  }

  function MirrorPlaced(p: Option<Placed>): Option<Placed> {
    match p
    case None => None
    case Some(placed) => Some(Placed(MirrorVector(placed.position), MirrorQuat(placed.rotation)))
  }

  /** The pose of the converted nodes is the mirror image of the pose of the originals, node
      by node, missing parts, scales and normalisation included. */
  lemma {:induction false} PoseMirrored(sqrt: real -> real, nodes: seq<Node>, index: nat, steps: nat)
    requires index < |nodes| && Rooted(Parents(nodes), index, steps)
    ensures Rooted(Parents(Converted(nodes)), index, steps)
    ensures Pose(sqrt, Converted(nodes), index, steps) == MirrorPlaced(Pose(sqrt, nodes, index, steps))
    decreases steps
  {
    hide Normalize, QuatMultiply, Rotate, Below, Parents, Converted, ConvertedNode, Translation, Rotation, Scaling,
      MirrorVector, MirrorQuat;
    SameParents(nodes);
    var node := nodes[index];
    ConvertedAt(nodes, index);
    PartsMirrored(node, ONES);
    MirrorNormalize(sqrt, Rotation(node));
    if index in Parents(nodes) {
      ParentsInside(nodes);
      var parent := Parents(nodes)[index];
      ConvertedAt(nodes, parent);
      PartsMirrored(nodes[parent], ONES);
      PoseMirrored(sqrt, nodes, parent, steps - 1);
      var above := Pose(sqrt, nodes, parent, steps - 1);
      if above.Some? {
        BelowMirrored(sqrt, above.value, Scaling(nodes[parent]), node);
      }
    }
  }

  lemma BelowMirrored(sqrt: real -> real, above: Placed, scale: Vec3, node: Node)
    ensures Below(sqrt, Placed(MirrorVector(above.position), MirrorQuat(above.rotation)), scale, ConvertedNode(node)) ==
            MirrorPlaced(Below(sqrt, above, scale, node))
  {
    hide Normalize, QuatMultiply, Rotate, Scaled, Translation, Rotation, ConvertedNode, Add, MirrorVector, MirrorQuat;
    var scaled := Scaled(Translation(node), scale);
    PartsMirrored(node, scale);
    MirrorMultiply(above.rotation, Rotation(node));
    MirrorNormalize(sqrt, QuatMultiply(above.rotation, Rotation(node)));
    MirrorRotate(above.rotation, scaled);
    MirrorAdd(above.position, Rotate(above.rotation, scaled));
  }

  lemma PartsMirrored(node: Node, scale: Vec3)
    ensures Scaled(Translation(ConvertedNode(node)), scale) == MirrorVector(Scaled(Translation(node), scale))
    ensures Translation(ConvertedNode(node)) == MirrorVector(Translation(node))
    ensures Rotation(ConvertedNode(node)) == MirrorQuat(Rotation(node))
    ensures Scaling(ConvertedNode(node)) == Scaling(node)
  {
    SignsCancel(Translation(node).x, scale.x);
  }

  lemma MirrorAdd(a: Vec3, b: Vec3)
    ensures Add(MirrorVector(a), MirrorVector(b)) == MirrorVector(Add(a, b))
  {
  }

  // ----- skinning -----------------------------------------------------------------------------------

  /** A node's matrix in model space. */
  function WorldMatrix(nodes: seq<Node>, index: nat, steps: nat): Matrix
    requires index < |nodes| && Rooted(Parents(nodes), index, steps)
    decreases steps
  {
    var node := nodes[index];
    var local := LocalMatrix(Translation(node), Rotation(node), Scaling(node));
    if index !in Parents(nodes) then local
    else
      ParentsInside(nodes);
      Multiply(WorldMatrix(nodes, Parents(nodes)[index], steps - 1), local)
  }

  lemma {:induction false} WorldMirrored(nodes: seq<Node>, index: nat, steps: nat)
    requires index < |nodes| && Rooted(Parents(nodes), index, steps)
    ensures Rooted(Parents(Converted(nodes)), index, steps)
    ensures WorldMatrix(Converted(nodes), index, steps) == MirrorMatrix(WorldMatrix(nodes, index, steps))
    decreases steps
  {
    hide LocalMatrix, Multiply, MirrorMatrix, Parents, Converted, ConvertedNode, Translation, Rotation, Scaling,
      MirrorVector, MirrorQuat;
    SameParents(nodes);
    var node := nodes[index];
    ConvertedAt(nodes, index);
    PartsMirrored(node, ONES);
    MirrorLocal(Translation(node), Rotation(node), Scaling(node));
    if index in Parents(nodes) {
      ParentsInside(nodes);
      var parent := Parents(nodes)[index];
      WorldMirrored(nodes, parent, steps - 1);
      MirrorProduct(WorldMatrix(nodes, parent, steps - 1),
        LocalMatrix(Translation(node), Rotation(node), Scaling(node)));
    }
  }

  /** What skins a vertex, joint times inverse bind, comes out mirrored on both sides. */
  lemma SkinMirrored(nodes: seq<Node>, index: nat, steps: nat, inverseBind: Matrix)
    requires index < |nodes| && Rooted(Parents(nodes), index, steps)
    ensures Rooted(Parents(Converted(nodes)), index, steps)
    ensures Multiply(WorldMatrix(Converted(nodes), index, steps), MirrorMatrix(inverseBind)) ==
            MirrorMatrix(Multiply(WorldMatrix(nodes, index, steps), inverseBind))
  {
    WorldMirrored(nodes, index, steps);
    hide Multiply, MirrorMatrix, WorldMatrix, Parents;
    MirrorProduct(WorldMatrix(nodes, index, steps), inverseBind);
  }

  // ----- the solver, filling its tables -----------------------------------------------------------------

  class Solver {
    const sqrt: real -> real
    const nodes: seq<Node>
    var position: map<nat, Vec3>
    var rotation: map<nat, Quat>

    constructor (sqrt: real -> real, nodes: seq<Node>)
      ensures this.sqrt == sqrt && this.nodes == nodes && position == map[] && rotation == map[]
    {
      this.sqrt, this.nodes, position, rotation := sqrt, nodes, map[], map[];
    }

    ghost predicate Valid()
      reads this
    {
      && Forest(nodes) && position.Keys == rotation.Keys
      && forall k :: k in position ==>
        k < |nodes| && Pose(sqrt, nodes, k, |nodes|) == Some(Placed(position[k], rotation[k]))
    }

    /** Solves a node after its parent, once; fails where a rotation cannot be normalised. */
    method Solve(index: nat, ghost steps: nat) returns (done: bool)
      requires Valid() && index < |nodes| && steps <= |nodes| && Rooted(Parents(nodes), index, steps)
      modifies this
      ensures Valid() && old(position.Keys) <= position.Keys
      ensures done <==> Pose(sqrt, nodes, index, |nodes|).Some?
      ensures done ==> index in position
      decreases steps
    {
      hide Normalize, QuatMultiply, Rotate, Parents, Forest, Translation, Rotation, Scaling, Scaled, Add;
      if index in position {
        return true;
      }
      var node, parents := nodes[index], Parents(nodes);
      InForest(nodes, index);
      StepsDoNotMatter(sqrt, nodes, index, steps, |nodes|);
      if index !in parents {
        var q := Normalize(sqrt, Rotation(node));
        if q.None? {
          return false;
        }
        position, rotation := position[index := Translation(node)], rotation[index := q.value];
        return true;
      }
      ParentsInside(nodes);
      var parent := parents[index];
      done := Solve(parent, steps - 1);
      InForest(nodes, parent);
      StepsDoNotMatter(sqrt, nodes, parent, steps - 1, |nodes|);
      if !done {
        return;
      }
      var scaled := Scaled(Translation(node), Scaling(nodes[parent]));
      var q := Normalize(sqrt, QuatMultiply(rotation[parent], Rotation(node)));
      if q.None? {
        return false;
      }
      position := position[index := Add(position[parent], Rotate(rotation[parent], scaled))];
      rotation := rotation[index := q.value];
    }

    /** Every node placed, or one that cannot be. */
    method Refresh() returns (done: bool)
      requires Forest(nodes)
      modifies this
      ensures done <==> forall k: nat | k < |nodes| :: Pose(sqrt, nodes, k, |nodes|).Some?
      ensures Valid() && (done ==> forall k: nat | k < |nodes| :: k in position)
    {
      hide Pose, Rooted;
      position, rotation := map[], map[];
      for index := 0 to |nodes|
        invariant Valid() && forall k: nat | k < index :: k in position
      {
        done := Solve(index, |nodes|);
        if !done {
          return;
        }
      }
      return true;
    }
  }
}
