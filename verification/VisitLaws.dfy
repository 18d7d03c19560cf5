/** Which accessors a model's conversion visits, for what and in which order. */
module VisitLaws {
  import opened Handedness
  import opened Wrappers

  // ----- which, and for what ------------------------------------------------------------------

  /** Positions and normals are directions, tangents are tangents. */
  predicate NamesVector(a: Attributes, v: Visit) {
    || (v.role == Direction && (a.position == Some(v.accessor) || a.normal == Some(v.accessor)))
    || (v.role == Tangent && a.tangent == Some(v.accessor))
  }

  /** A primitive's own attributes or those of one of its morph targets name it, or it is its indices. */
  predicate NamedBy(p: Primitive, v: Visit) {
    || (exists t :: 0 <= t < |p.targets| && NamesVector(p.targets[t], v))
    || (v.role == Winding && p.indices == Some(v.accessor))
  }

  predicate NamedIn(primitives: seq<Primitive>, v: Visit) {
    exists j :: 0 <= j < |primitives| && NamedBy(primitives[j], v)
  }

  /** Some primitive of some mesh names it, or some skin has it for its bind matrices. */
  predicate Named(meshes: seq<seq<Primitive>>, skins: seq<Option<nat>>, v: Visit) {
    || (exists k :: 0 <= k < |meshes| && NamedIn(meshes[k], v))
    || (v.role == BindMatrix && exists s :: 0 <= s < |skins| && skins[s] == Some(v.accessor))
  }

  /** Every accessor is visited for everything it is named for, and for nothing else. */
  lemma VisitedExactly(meshes: seq<seq<Primitive>>, skins: seq<Option<nat>>, v: Visit)
    ensures v in AllVisits(meshes, skins) <==> Named(meshes, skins, v)
  {
    hide NamedIn, MeshesVisits, SkinVisits;
    MeshesVisited(meshes, v);
    SkinsVisited(skins, v);
  }

  lemma {:induction false} MeshesVisited(meshes: seq<seq<Primitive>>, v: Visit)
    ensures v in MeshesVisits(meshes) <==> exists k :: 0 <= k < |meshes| && NamedIn(meshes[k], v)
  {
    hide NamedIn, MeshVisits;
    if meshes != [] {
      var last := |meshes| - 1;
      MeshesVisited(meshes[..last], v);
      MeshVisited(meshes[last], v);
      assert forall k :: 0 <= k < last ==> meshes[..last][k] == meshes[k];
    }
  }

  lemma {:induction false} MeshVisited(primitives: seq<Primitive>, v: Visit)
    ensures v in MeshVisits(primitives) <==> NamedIn(primitives, v)
  {
    hide NamedBy, PrimitiveVisits;
    if primitives != [] {
      var last := |primitives| - 1;
      MeshVisited(primitives[..last], v);
      PrimitiveVisited(primitives[last], v);
      assert forall j :: 0 <= j < last ==> primitives[..last][j] == primitives[j];
    }
  }

  lemma PrimitiveVisited(p: Primitive, v: Visit)
    ensures v in PrimitiveVisits(p) <==> NamedBy(p, v)
  {
    hide NamesVector, TargetVisits;
    TargetsVisited(p.targets, v);
  }

  lemma {:induction false} TargetsVisited(targets: seq<Attributes>, v: Visit)
    ensures v in TargetVisits(targets) <==> exists t :: 0 <= t < |targets| && NamesVector(targets[t], v)
  {
    hide NamesVector, AttributeVisits;
    if targets != [] {
      var last := |targets| - 1;
      TargetsVisited(targets[..last], v);
      AttributesVisited(targets[last], v);
      assert forall t :: 0 <= t < last ==> targets[..last][t] == targets[t];
    }
  }

  lemma AttributesVisited(a: Attributes, v: Visit)
    ensures v in AttributeVisits(a) <==> NamesVector(a, v)
  {
  }

  lemma {:induction false} SkinsVisited(skins: seq<Option<nat>>, v: Visit)
    ensures v in SkinVisits(skins)
      <==> v.role == BindMatrix && exists s :: 0 <= s < |skins| && skins[s] == Some(v.accessor)
  {
    if skins != [] {
      var last := |skins| - 1;
      SkinsVisited(skins[..last], v);
      assert forall s :: 0 <= s < last ==> skins[..last][s] == skins[s];
    }
  }

  // ----- in which order -------------------------------------------------------------------------

  /** An accessor counts for what its first visit is for. */
  lemma {:induction false} FirstVisitDecides(visits: seq<Visit>, k: nat)
    requires k < |visits| && forall j :: 0 <= j < k ==> visits[j].accessor != visits[k].accessor
    ensures visits[k].accessor in FirstRoles(visits) && FirstRoles(visits)[visits[k].accessor] == visits[k].role
  {
    var last := |visits| - 1;
    if k < last {
      FirstVisitDecides(visits[..last], k);
    } else {
      OnlyVisited(visits[..last], visits[last].accessor);
    }
  }

  lemma {:induction false} OnlyVisited(visits: seq<Visit>, i: nat)
    ensures i in FirstRoles(visits) <==> exists j :: 0 <= j < |visits| && visits[j].accessor == i
  {
    if visits != [] {
      var last := |visits| - 1;
      OnlyVisited(visits[..last], i);
      assert forall j :: 0 <= j < last ==> visits[..last][j] == visits[j];
    }
  }

  /** Skins come last, after every mesh. */
  lemma SkinsLast(meshes: seq<seq<Primitive>>, skins: seq<Option<nat>>, i: nat, j: nat)
    requires i < j < |AllVisits(meshes, skins)| && AllVisits(meshes, skins)[i].role == BindMatrix
    ensures AllVisits(meshes, skins)[j].role == BindMatrix
  {
    hide MeshesVisits, SkinVisits, NamedIn;
    var visits, n := AllVisits(meshes, skins), |MeshesVisits(meshes)|;
    if i < n {
      MeshesVisited(meshes, visits[i]);
      NeverBinds(meshes, visits[i]);
    }
    SkinsVisited(skins, visits[j]);
  }

  lemma NeverBinds(meshes: seq<seq<Primitive>>, v: Visit)
    requires exists k :: 0 <= k < |meshes| && NamedIn(meshes[k], v)
    ensures v.role != BindMatrix
  {
  }

  /** Mesh after mesh. */
  lemma {:induction false} MeshesInOrder(a: seq<seq<Primitive>>, b: seq<seq<Primitive>>)
    ensures MeshesVisits(a + b) == MeshesVisits(a) + MeshesVisits(b)
  {
    hide MeshVisits;
    if b == [] {
      assert a + b == a;
    } else {
      MeshesInOrder(a, b[..|b| - 1]);
      assert (a + b)[..|a + b| - 1] == a + b[..|b| - 1];
    }
  }

  lemma {:induction false} MeshInOrder(a: seq<Primitive>, b: seq<Primitive>)
    ensures MeshVisits(a + b) == MeshVisits(a) + MeshVisits(b)
  {
    hide PrimitiveVisits;
    if b == [] {
      assert a + b == a;
    } else {
      MeshInOrder(a, b[..|b| - 1]);
      assert (a + b)[..|a + b| - 1] == a + b[..|b| - 1];
    }
  }

  /** In a mesh primitive after primitive, and each primitive's indices after all of its attributes. */
  lemma PrimitivesInOrder(a: seq<Primitive>, mode: nat, targets: seq<Attributes>, i: nat, b: seq<Primitive>)
    ensures MeshVisits(a + [Primitive(mode, targets, Some(i))] + b)
      == MeshVisits(a) + TargetVisits(targets) + [Visit(i, Winding)] + MeshVisits(b)
  {
    hide TargetVisits;
    var p := Primitive(mode, targets, Some(i));
    assert MeshVisits([p]) == TargetVisits(targets) + [Visit(i, Winding)] by {
      assert [p][..0] == [];
    }
    hide MeshVisits;
    MeshInOrder(a, [p]);
    MeshInOrder(a + [p], b);
  }

  lemma {:induction false} TargetsInOrder(a: seq<Attributes>, b: seq<Attributes>)
    ensures TargetVisits(a + b) == TargetVisits(a) + TargetVisits(b)
  {
    hide AttributeVisits;
    if b == [] {
      assert a + b == a;
    } else {
      TargetsInOrder(a, b[..|b| - 1]);
      assert (a + b)[..|a + b| - 1] == a + b[..|b| - 1];
    }
  }

  /** A primitive's own attributes and then target after target; in each the position, the normal, the tangent. */
  lemma AttributesInOrder(a: seq<Attributes>, position: nat, normal: nat, tangent: nat, b: seq<Attributes>)
    ensures TargetVisits(a + [Attributes(Some(position), Some(normal), Some(tangent))] + b)
      == TargetVisits(a) + [Visit(position, Direction), Visit(normal, Direction), Visit(tangent, Tangent)]
           + TargetVisits(b)
  {
    var t := Attributes(Some(position), Some(normal), Some(tangent));
    assert TargetVisits([t]) == [Visit(position, Direction), Visit(normal, Direction), Visit(tangent, Tangent)] by {
      assert [t][..0] == [];
    }
    hide TargetVisits;
    TargetsInOrder(a, [t]);
    TargetsInOrder(a + [t], b);
  }

  /** Skin after skin. */
  lemma {:induction false} SkinsInOrder(a: seq<Option<nat>>, b: seq<Option<nat>>)
    ensures SkinVisits(a + b) == SkinVisits(a) + SkinVisits(b)
  {
    if b == [] {
      assert a + b == a;
    } else {
      SkinsInOrder(a, b[..|b| - 1]);
      assert (a + b)[..|a + b| - 1] == a + b[..|b| - 1];
    }
  }
}
