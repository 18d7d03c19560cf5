/** Converting a model's buffers to the other handedness in place: every accessor is
    flipped once, however many primitives and skins share it. */
module Handedness {
  import opened Mirror
  import opened Geometry
  import opened Wrappers

  /** What an accessor is used for. */
  datatype Role = Direction | Tangent | Winding | BindMatrix

  /** `count` elements of `width` components, `stride` cells apart. */
  datatype Accessor = Accessor(base: nat, stride: nat, width: nat, count: nat)

  /** An accessor's authored range along X. */
  datatype Bounds = Unbounded | Bounded(low: real, high: real)

  datatype Attributes = Attributes(position: Option<nat>, normal: Option<nat>, tangent: Option<nat>)

  /** `targets` are the attributes and then the morph targets. */
  datatype Primitive = Primitive(mode: nat, targets: seq<Attributes>, indices: Option<nat>)

  datatype Visit = Visit(accessor: nat, role: Role)

  const TRIANGLES: nat := 4
  /** The last component of a matrix that mirroring negates. */
  const LAST_MIXED: nat := 12

  // ----- cells ------------------------------------------------------------------------------

  function Cell(a: Accessor, element: nat, component: nat): nat {
    a.base + element * a.stride + component
  }

  predicate Packed(a: Accessor) {
    1 <= a.width <= a.stride
  }

  predicate Fits(a: Accessor, length: nat) {
    forall e: nat, k: nat | e < a.count && k < a.width :: Cell(a, e, k) < length
  }

  ghost predicate Owns(a: Accessor, c: nat) {
    exists e: nat, k: nat :: e < a.count && k < a.width && Cell(a, e, k) == c
  }

  lemma CellsInOrder(a: Accessor, d: nat, e: nat)
    requires d < e
    ensures Cell(a, d, 0) + a.stride <= Cell(a, e, 0)
  {
    assert (d + 1) * a.stride <= e * a.stride by { Monotone(d + 1, e, a.stride); }
    assert (d + 1) * a.stride == d * a.stride + a.stride;
  }

  lemma Monotone(m: nat, n: nat, k: nat)
    requires m <= n
    ensures m * k <= n * k
  {
  }

  lemma CellsDistinct(a: Accessor, d: nat, j: nat, e: nat, k: nat)
    requires Packed(a) && j < a.stride && k < a.stride && Cell(a, d, j) == Cell(a, e, k)
    ensures d == e && j == k
  {
    if d < e {
      CellsInOrder(a, d, e);
    } else if e < d {
      CellsInOrder(a, e, d);
    }
  }

  // ----- what flipping an accessor means ---------------------------------------------------------

  /** A component's value once its accessor is flipped. */
  function Value(m: seq<real>, a: Accessor, role: Role, e: nat, k: nat): real
    requires Fits(a, |m|) && e < a.count && k < a.width
  {
    match role
    case Direction => if k == 0 then -m[Cell(a, e, k)] else m[Cell(a, e, k)]
    case Tangent => if k == 0 || k == 3 then -m[Cell(a, e, k)] else m[Cell(a, e, k)]
    case Winding =>
      if k != 0 || e / 3 >= a.count / 3 || e % 3 == 0 then m[Cell(a, e, k)]
      else if e % 3 == 1 then m[Cell(a, e + 1, 0)] else m[Cell(a, e - 1, 0)]
    case BindMatrix => if k < 16 && Mixed(k) then -m[Cell(a, e, k)] else m[Cell(a, e, k)]
  }

  /** Its own cells flipped, and no others touched. */
  ghost predicate Flipped(before: seq<real>, after: seq<real>, a: Accessor, role: Role) {
    && |after| == |before| && Fits(a, |before|)
    && (forall e: nat, k: nat :: e < a.count && k < a.width ==> after[Cell(a, e, k)] == Value(before, a, role, e, k))
    && (forall c: nat :: c < |before| && !Owns(a, c) ==> after[c] == before[c])
  }

  // ----- negating X, and W -----------------------------------------------------------------------------

  /** The buffer holds this component of the first `n` elements. */
  predicate ReachesTo(a: Accessor, n: nat, component: nat, length: nat) {
    forall e: nat | e < n :: Cell(a, e, component) < length
  }

  predicate Reaches(a: Accessor, component: nat, length: nat) {
    ReachesTo(a, a.count, component, length)
  }

  function NegatedAt(m: seq<real>, c: nat): (r: seq<real>)
    requires c < |m|
    ensures |r| == |m|
  {
    m[c := -m[c]]
  }

  /** The loop over elements, after `n` of them. */
  function NegatedX(m: seq<real>, a: Accessor, flipW: bool, n: nat): (r: seq<real>)
    requires ReachesTo(a, n, 0, |m|) && (flipW ==> ReachesTo(a, n, 3, |m|))
    ensures |r| == |m|
  {
    if n == 0 then m
    else
      var x := NegatedAt(NegatedX(m, a, flipW, n - 1), Cell(a, n - 1, 0));
      if flipW then NegatedAt(x, Cell(a, n - 1, 3)) else x
  }

  function SwappedBounds(b: Bounds): Bounds {
    match b
    case Unbounded => Unbounded
    case Bounded(low, high) => Bounded(-high, -low)
  }

  ghost predicate WithinBounds(b: Bounds, x: real) {
    b.Bounded? ==> b.low <= x <= b.high
  }

  /** The authored range still holds of what it was authored for. */
  lemma BoundsStillHold(b: Bounds, x: real)
    ensures WithinBounds(b, x) <==> WithinBounds(SwappedBounds(b), -x)
  {
  }

  lemma {:induction false} NegatedPointwise(m: seq<real>, a: Accessor, flipW: bool, n: nat)
    requires Packed(a) && n <= a.count && Fits(a, |m|) && Reaches(a, 0, |m|)
      && (flipW ==> Reaches(a, 3, |m|) && a.width >= 4)
    ensures var r := NegatedX(m, a, flipW, n);
      && (forall e: nat, k: nat :: e < a.count && k < a.width ==>
            r[Cell(a, e, k)] == if e < n && (k == 0 || (flipW && k == 3)) then -m[Cell(a, e, k)] else m[Cell(a, e, k)])
      && (forall c: nat :: c < |m| && !Owns(a, c) ==> r[c] == m[c])
  {
    hide Cell;
    if n > 0 {
      NegatedPointwise(m, a, flipW, n - 1);
      forall e: nat, k: nat | e < a.count && k < a.width
        ensures Cell(a, e, k) == Cell(a, n - 1, 0) ==> e == n - 1 && k == 0
        ensures a.width >= 4 && Cell(a, e, k) == Cell(a, n - 1, 3) ==> e == n - 1 && k == 3
      {
        if Cell(a, e, k) == Cell(a, n - 1, 0) { CellsDistinct(a, e, k, n - 1, 0); }
        if a.width >= 4 && Cell(a, e, k) == Cell(a, n - 1, 3) { CellsDistinct(a, e, k, n - 1, 3); }
      }
    }
  }

  /** Vectors, and tangents of four components, come out flipped. */
  lemma NegatedFlips(m: seq<real>, a: Accessor, flipW: bool)
    requires Packed(a) && Fits(a, |m|) && (flipW ==> a.width >= 4)
    ensures Reaches(a, 0, |m|) && (flipW ==> Reaches(a, 3, |m|))
    ensures Flipped(m, NegatedX(m, a, flipW, a.count), a, if flipW then Tangent else Direction)
  {
    assert forall e: nat :: e < a.count ==> Cell(a, e, 0) < |m|;
    assert flipW ==> forall e: nat :: e < a.count ==> Cell(a, e, 3) < |m|;
    NegatedPointwise(m, a, flipW, a.count);
    hide Cell;
  }

  lemma {:induction false} BeyondUntouched(m: seq<real>, a: Accessor, n: nat, c: nat)
    requires Packed(a) && n <= a.count && Reaches(a, 0, |m|) && Reaches(a, 3, |m|) && c < |m|
    requires c >= Cell(a, n, 3)
    ensures NegatedX(m, a, true, n)[c] == m[c]
  {
    if n > 0 {
      CellsInOrder(a, n - 1, n);
      BeyondUntouched(m, a, n - 1, c);
    }
  }

  ghost predicate NeverStrays(a: Accessor) {
    forall m: seq<real>, c: nat ::
      Fits(a, |m|) && Reaches(a, 0, |m|) && Reaches(a, 3, |m|) && c < |m| && !Owns(a, c) ==>
      NegatedX(m, a, true, a.count)[c] == m[c]
  }

  /** Flipping a tangent's fourth component keeps to the accessor exactly where there is a
      fourth component; a morph target's three-component tangents have none, and then a
      cell of something else is negated. */
  lemma TangentsNeedFour(a: Accessor)
    requires Packed(a) && a.count > 0
    ensures NeverStrays(a) <==> a.width >= 4
  {
    if a.width >= 4 {
      forall m: seq<real>, c: nat | Fits(a, |m|) && Reaches(a, 0, |m|) && Reaches(a, 3, |m|) && c < |m| && !Owns(a, c)
        ensures NegatedX(m, a, true, a.count)[c] == m[c]
      {
        NegatedPointwise(m, a, true, a.count);
      }
    } else {
      var last := a.count - 1;
      var c := Cell(a, last, 3);
      var m := seq(c + 1, _ => 1.0);
      EveryCellBefore(a, c);
      BeyondUntouched(m, a, last, c);
      assert NegatedX(m, a, true, a.count)[c] == -1.0;
    }
  }

  lemma EveryCellBefore(a: Accessor, c: nat)
    requires Packed(a) && a.count > 0 && a.width < 4 && c == Cell(a, a.count - 1, 3)
    ensures Fits(a, c + 1) && Reaches(a, 0, c + 1) && Reaches(a, 3, c + 1) && !Owns(a, c)
  {
    forall e: nat, k: nat | e < a.count && k < 4 ensures Cell(a, e, k) <= c && (k < 3 ==> Cell(a, e, k) < c) {
      if e < a.count - 1 {
        CellsInOrder(a, e, a.count - 1);
      }
    }
  }

  /** Of one accessor, then: every buffer comes out with it flipped exactly where it has a
      fourth component. */
  lemma TangentsFlippedExactly(a: Accessor)
    requires Packed(a) && a.count > 0
    ensures AlwaysFlips(a) <==> a.width >= 4
  {
    if a.width >= 4 {
      forall m: seq<real> | Fits(a, |m|) && Reaches(a, 0, |m|) && Reaches(a, 3, |m|)
        ensures Flipped(m, NegatedX(m, a, true, a.count), a, Tangent)
      {
        NegatedFlips(m, a, true);
      }
    } else {
      TangentsNeedFour(a);
      var m: seq<real>, c: nat :|
        Fits(a, |m|) && Reaches(a, 0, |m|) && Reaches(a, 3, |m|) && c < |m| && !Owns(a, c) &&
        NegatedX(m, a, true, a.count)[c] != m[c];
      assert !Flipped(m, NegatedX(m, a, true, a.count), a, Tangent);
    }
  }

  ghost predicate AlwaysFlips(a: Accessor) {
    forall m: seq<real> :: Fits(a, |m|) && Reaches(a, 0, |m|) && Reaches(a, 3, |m|) ==>
      Flipped(m, NegatedX(m, a, true, a.count), a, Tangent)
  }

  /** How often a cell is negated in a tight run of three-component tangents, `n` of them
      done: the X of every one but the first is taken for the W before it as well. */
  function TimesNegated(e: nat, n: nat): nat {
    (if e < n then 1 else 0) + (if 0 < e <= n then 1 else 0)
  }

  lemma {:induction false} TightRun(m: seq<real>, a: Accessor, n: nat, e: nat)
    requires a.stride == a.width == 3 && n <= a.count && e <= a.count
    requires Fits(a, |m|) && Reaches(a, 0, |m|) && Reaches(a, 3, |m|) && Cell(a, e, 0) < |m|
    ensures NegatedX(m, a, true, n)[Cell(a, e, 0)]
      == if TimesNegated(e, n) == 1 then -m[Cell(a, e, 0)] else m[Cell(a, e, 0)]
  {
    if n > 0 {
      TightRun(m, a, n - 1, e);
      assert Cell(a, n - 1, 3) == Cell(a, n, 0);
    }
  }

  /** So of a tight run of morph-target tangents only the first has its X negated. Every
      other keeps the X it had, and what lies behind the run is negated. */
  lemma TightTangentsUnmirrored(m: seq<real>, a: Accessor)
    requires a.stride == a.width == 3 && a.count > 0
    requires Fits(a, |m|) && Reaches(a, 0, |m|) && Reaches(a, 3, |m|)
    ensures var r := NegatedX(m, a, true, a.count);
      && r[Cell(a, 0, 0)] == -m[Cell(a, 0, 0)]
      && (forall e: nat :: 0 < e < a.count ==> r[Cell(a, e, 0)] == m[Cell(a, e, 0)])
      && Cell(a, a.count, 0) < |m| && r[Cell(a, a.count, 0)] == -m[Cell(a, a.count, 0)]
  {
    assert Cell(a, a.count - 1, 3) == Cell(a, a.count, 0);
    TightRun(m, a, a.count, a.count);
    forall e: nat | e < a.count ensures NegatedX(m, a, true, a.count)[Cell(a, e, 0)] ==
      if TimesNegated(e, a.count) == 1 then -m[Cell(a, e, 0)] else m[Cell(a, e, 0)]
    {
      TightRun(m, a, a.count, e);
    }
  }

  // ----- in place -----------------------------------------------------------------------------------

  /** Negates X, and W where asked, and turns the accessor's bounds round. A W past the end of
      the buffer stops it. */
  method NegateX(m: array<real>, bounds: array<Bounds>, i: nat, a: Accessor, flipW: bool) returns (done: bool)
    requires Reaches(a, 0, m.Length) && i < bounds.Length
    modifies m, bounds
    ensures done <==> (flipW ==> Reaches(a, 3, m.Length))
    ensures done ==> m[..] == NegatedX(old(m[..]), a, flipW, a.count)
    ensures done ==> bounds[..] == old(bounds[..])[i := SwappedBounds(old(bounds[i]))]
  {
    hide Cell;
    ghost var m0 := m[..];
    for element := 0 to a.count
      invariant bounds[..] == old(bounds[..])
      invariant flipW ==> ReachesTo(a, element, 3, m.Length)
      invariant m[..] == NegatedX(m0, a, flipW, element)
    {
      ghost var before := m[..];
      if flipW && Cell(a, element, 3) >= m.Length {
        return false;
      }
      m[Cell(a, element, 0)] := -m[Cell(a, element, 0)];
      assert m[..] == NegatedAt(before, Cell(a, element, 0));
      if flipW {
        ghost var x := m[..];
        m[Cell(a, element, 3)] := -m[Cell(a, element, 3)];
        assert m[..] == NegatedAt(x, Cell(a, element, 3));
      }
    }
    bounds[i] := SwappedBounds(bounds[i]);
    return true;
  }

  /** The corners of the first `n` triangles exchanged. */
  function Rewinding(m: seq<real>, a: Accessor, n: nat): (r: seq<real>)
    requires Packed(a) && Fits(a, |m|) && n <= a.count / 3
    ensures |r| == |m|
  {
    if n == 0 then m else Swapped(Rewinding(m, a, n - 1), Cell(a, (n - 1) * 3 + 1, 0), Cell(a, (n - 1) * 3 + 2, 0))
  }

  lemma {:induction false} RewindingIsRewound(m: seq<real>, a: Accessor, n: nat)
    requires Packed(a) && Fits(a, |m|) && n <= a.count / 3
    ensures Rewound(m, Rewinding(m, a, n), a, n)
  {
    hide Rewound, Swapped, Fits, Packed;
    if n == 0 {
      NothingRewound(m, a);
    } else {
      RewindingIsRewound(m, a, n - 1);
      RewoundOn(m, Rewinding(m, a, n - 1), a, n - 1);
    }
  }

  lemma RewindingFlips(m: seq<real>, a: Accessor)
    requires Packed(a) && Fits(a, |m|)
    ensures Flipped(m, Rewinding(m, a, a.count / 3), a, Winding)
  {
    RewindingIsRewound(m, a, a.count / 3);
    RewoundAll(m, Rewinding(m, a, a.count / 3), a);
  }

  /** Each triangle's second and third corners change places. */
  method ReverseWinding(m: array<real>, a: Accessor)
    requires Packed(a) && Fits(a, m.Length)
    modifies m
    ensures m[..] == Rewinding(old(m[..]), a, a.count / 3)
  {
    ghost var before := m[..];
    hide Cell, Swapped, Fits;
    for triangle := 0 to a.count / 3
      invariant m[..] == Rewinding(before, a, triangle)
    {
      CornersFit(a, m.Length, triangle);
      SwapCells(m, Cell(a, triangle * 3 + 1, 0), Cell(a, triangle * 3 + 2, 0));
    }
  }

  lemma CornersFit(a: Accessor, length: nat, triangle: nat)
    requires Packed(a) && Fits(a, length) && triangle < a.count / 3
    ensures Cell(a, triangle * 3 + 1, 0) < Cell(a, triangle * 3 + 2, 0) < length
  {
    CellsInOrder(a, triangle * 3 + 1, triangle * 3 + 2);
    assert triangle * 3 + 2 < a.count;
  }

  method SwapCells(m: array<real>, p: nat, q: nat)
    requires p < m.Length && q < m.Length && p != q
    modifies m
    ensures m[..] == Swapped(old(m[..]), p, q)
  {
    m[p], m[q] := m[q], m[p];
  }

  function Swapped(s: seq<real>, p: nat, q: nat): (r: seq<real>)
    requires p < |s| && q < |s|
    ensures |r| == |s|
  {
    s[p := s[q]][q := s[p]]
  }

  lemma NothingRewound(before: seq<real>, a: Accessor)
    requires Fits(a, |before|)
    ensures Rewound(before, before, a, 0)
  {
    hide Cell;
  }

  /** The first `n` triangles are rewound. */
  ghost predicate Rewound(before: seq<real>, after: seq<real>, a: Accessor, n: nat) {
    && |after| == |before| && Fits(a, |before|)
    && (forall e: nat, k: nat :: e < a.count && k < a.width ==>
          after[Cell(a, e, k)] == if e / 3 < n then Value(before, a, Winding, e, k) else before[Cell(a, e, k)])
    && (forall c: nat :: c < |before| && !Owns(a, c) ==> after[c] == before[c])
  }

  lemma RewoundOn(before: seq<real>, after: seq<real>, a: Accessor, n: nat)
    requires Packed(a) && Rewound(before, after, a, n) && n < a.count / 3
    ensures Cell(a, n * 3 + 1, 0) < |after| && Cell(a, n * 3 + 2, 0) < |after|
    ensures Rewound(before, Swapped(after, Cell(a, n * 3 + 1, 0), Cell(a, n * 3 + 2, 0)), a, n + 1)
  {
    CornersFit(a, |after|, n);
    var p, q := Cell(a, n * 3 + 1, 0), Cell(a, n * 3 + 2, 0);
    assert Owns(a, p) && Owns(a, q) by { assert n * 3 + 2 < a.count; }
    hide Cell, Value, Packed;
    forall e: nat, k: nat | e < a.count && k < a.width
      ensures Swapped(after, p, q)[Cell(a, e, k)] ==
        if e / 3 < n + 1 then Value(before, a, Winding, e, k) else before[Cell(a, e, k)]
    {
      RewoundCell(before, after, a, n, p, q, e, k);
    }
  }

  lemma RewoundCell(before: seq<real>, after: seq<real>, a: Accessor, n: nat, p: nat, q: nat, e: nat, k: nat)
    requires Packed(a) && Rewound(before, after, a, n) && n < a.count / 3 && e < a.count && k < a.width
    requires p == Cell(a, n * 3 + 1, 0) < |after| && q == Cell(a, n * 3 + 2, 0) < |after|
    ensures Swapped(after, p, q)[Cell(a, e, k)] ==
      if e / 3 < n + 1 then Value(before, a, Winding, e, k) else before[Cell(a, e, k)]
  {
    hide Cell;
    if Cell(a, e, k) == p { CellsDistinct(a, e, k, n * 3 + 1, 0); }
    if Cell(a, e, k) == q { CellsDistinct(a, e, k, n * 3 + 2, 0); }
    assert after[Cell(a, e, k)] == if e / 3 < n then Value(before, a, Winding, e, k) else before[Cell(a, e, k)];
    if k == 0 && e / 3 == n {
      Corner(e, n);
      assert after[p] == before[p] && after[q] == before[q];
    }
  }

  lemma Corner(e: nat, n: nat)
    requires e / 3 == n
    ensures e == n * 3 + e % 3
  {
  }

  lemma RewoundAll(before: seq<real>, after: seq<real>, a: Accessor)
    requires Rewound(before, after, a, a.count / 3)
    ensures Flipped(before, after, a, Winding)
  {
    hide Cell;
  }

  /** The first `done` components of one matrix, the mixed ones negated. */
  function MirroringOne(m: seq<real>, a: Accessor, e: nat, done: nat): (r: seq<real>)
    requires done <= 16 && Cell(a, e, LAST_MIXED) < |m|
    ensures |r| == |m|
  {
    if done == 0 then m
    else
      var before := MirroringOne(m, a, e, done - 1);
      if Mixed(done - 1) then NegatedAt(before, Cell(a, e, done - 1)) else before
  }

  /** The first `n` matrices. */
  function Mirroring(m: seq<real>, a: Accessor, n: nat): (r: seq<real>)
    requires ReachesTo(a, n, LAST_MIXED, |m|)
    ensures |r| == |m|
  {
    if n == 0 then m else MirroringOne(Mirroring(m, a, n - 1), a, n - 1, 16)
  }

  lemma {:induction false} MirroringOneMirrors(before: seq<real>, m: seq<real>, a: Accessor, n: nat, done: nat)
    requires Packed(a) && a.width >= 16 && n < a.count && done <= 16 && Mirrored(before, m, a, n, 0)
    requires Cell(a, n, LAST_MIXED) < |m|
    ensures Mirrored(before, MirroringOne(m, a, n, done), a, n, done)
  {
    hide Mirrored, Cell;
    if done > 0 {
      MirroringOneMirrors(before, m, a, n, done - 1);
      MirroredOn(before, MirroringOne(m, a, n, done - 1), a, n, done - 1);
    }
  }

  lemma {:induction false} MirroringMirrors(m: seq<real>, a: Accessor, n: nat)
    requires Packed(a) && Fits(a, |m|) && a.width >= 16 && n <= a.count && Reaches(a, LAST_MIXED, |m|)
    ensures Mirrored(m, Mirroring(m, a, n), a, n, 0)
  {
    hide Mirrored, Cell;
    if n == 0 {
      NothingMirrored(m, a);
    } else {
      MirroringMirrors(m, a, n - 1);
      MirroringOneMirrors(m, Mirroring(m, a, n - 1), a, n - 1, 16);
      MirroredNext(m, Mirroring(m, a, n), a, n - 1);
    }
  }

  lemma NothingMirrored(m: seq<real>, a: Accessor)
    requires Fits(a, |m|)
    ensures Mirrored(m, m, a, 0, 0)
  {
    hide Cell;
  }

  lemma MirroringFlips(m: seq<real>, a: Accessor)
    requires Packed(a) && Fits(a, |m|) && a.width >= 16
    ensures Reaches(a, LAST_MIXED, |m|) && Flipped(m, Mirroring(m, a, a.count), a, BindMatrix)
  {
    assert forall e: nat :: e < a.count ==> Cell(a, e, LAST_MIXED) < |m|;
    MirroringMirrors(m, a, a.count);
    MirroredAll(m, Mirroring(m, a, a.count), a);
  }

  /** Every matrix has its mixed components negated. One past the end of the buffer stops it. */
  method MirrorBindMatrices(m: array<real>, a: Accessor) returns (done: bool)
    modifies m
    ensures done <==> Reaches(a, LAST_MIXED, m.Length)
    ensures done ==> m[..] == Mirroring(old(m[..]), a, a.count)
  {
    ghost var m0 := m[..];
    for element := 0 to a.count
      invariant ReachesTo(a, element, LAST_MIXED, m.Length)
      invariant m[..] == Mirroring(m0, a, element)
    {
      ghost var before := m[..];
      if Cell(a, element, LAST_MIXED) >= m.Length {
        return false;
      }
      for component := 0 to 16
        invariant m[..] == MirroringOne(before, a, element, component)
      {
        if Mixed(component) {
          m[Cell(a, element, component)] := -m[Cell(a, element, component)];
        }
      }
    }
    return true;
  }

  /** The first `n` matrices are mirrored, and `done` components of the next. */
  ghost predicate Mirrored(before: seq<real>, after: seq<real>, a: Accessor, n: nat, done: nat) {
    && |after| == |before| && Fits(a, |before|)
    && (forall e: nat, k: nat :: e < a.count && k < a.width ==>
          after[Cell(a, e, k)] ==
            if e < n || (e == n && k < done) then Value(before, a, BindMatrix, e, k) else before[Cell(a, e, k)])
    && (forall c: nat :: c < |before| && !Owns(a, c) ==> after[c] == before[c])
  }

  lemma MirroredOn(before: seq<real>, after: seq<real>, a: Accessor, n: nat, done: nat)
    requires Packed(a) && a.width >= 16 && Mirrored(before, after, a, n, done) && n < a.count && done < 16
    ensures Cell(a, n, done) < |after|
    ensures var c := Cell(a, n, done);
      Mirrored(before, if Mixed(done) then after[c := -after[c]] else after, a, n, done + 1)
  {
    hide Cell;
    var c := Cell(a, n, done);
    forall e: nat, k: nat | e < a.count && k < a.width ensures Cell(a, e, k) == c ==> e == n && k == done {
      if Cell(a, e, k) == c { CellsDistinct(a, e, k, n, done); }
    }
  }

  lemma MirroredNext(before: seq<real>, after: seq<real>, a: Accessor, n: nat)
    requires Mirrored(before, after, a, n, 16)
    ensures Mirrored(before, after, a, n + 1, 0)
  {
    hide Cell;
  }

  lemma MirroredAll(before: seq<real>, after: seq<real>, a: Accessor)
    requires Mirrored(before, after, a, a.count, 0)
    ensures Flipped(before, after, a, BindMatrix)
  {
    hide Cell;
  }

  // ----- which accessor is used for what, in order ------------------------------------------------------

  function Used(index: Option<nat>, role: Role): seq<Visit> {
    if index.None? then [] else [Visit(index.value, role)]
  }

  function AttributeVisits(a: Attributes): seq<Visit> {
    Used(a.position, Direction) + Used(a.normal, Direction) + Used(a.tangent, Tangent)
  }

  function TargetVisits(targets: seq<Attributes>): seq<Visit> {
    if targets == [] then [] else TargetVisits(targets[..|targets| - 1]) + AttributeVisits(targets[|targets| - 1])
  }

  function PrimitiveVisits(p: Primitive): seq<Visit> {
    TargetVisits(p.targets) + Used(p.indices, Winding)
  }

  function MeshVisits(primitives: seq<Primitive>): seq<Visit> {
    if primitives == [] then []
    else MeshVisits(primitives[..|primitives| - 1]) + PrimitiveVisits(primitives[|primitives| - 1])
  }

  function MeshesVisits(meshes: seq<seq<Primitive>>): seq<Visit> {
    if meshes == [] then [] else MeshesVisits(meshes[..|meshes| - 1]) + MeshVisits(meshes[|meshes| - 1])
  }

  function SkinVisits(skins: seq<Option<nat>>): seq<Visit> {
    if skins == [] then [] else SkinVisits(skins[..|skins| - 1]) + Used(skins[|skins| - 1], BindMatrix)
  }

  /** What each accessor is first used for. */
  function FirstRoles(visits: seq<Visit>): map<nat, Role> {
    if visits == [] then map[]
    else
      var before, last := FirstRoles(visits[..|visits| - 1]), visits[|visits| - 1];
      if last.accessor in before then before else before[last.accessor := last.role]
  }

  /** The accessor has the components its use touches. */
  predicate Suits(a: Accessor, role: Role) {
    (role == Tangent ==> a.width >= 4) && (role == BindMatrix ==> a.width >= 16)
  }

  ghost predicate AllSuit(accessors: seq<Accessor>, visits: seq<Visit>) {
    forall v :: v in visits ==> v.accessor < |accessors| && Suits(accessors[v.accessor], v.role)
  }

  predicate Convertible(meshes: seq<seq<Primitive>>) {
    forall mesh, p | mesh in meshes && p in mesh :: p.mode == TRIANGLES && p.indices.Some?
  }

  // ----- the whole conversion, whatever it is given ----------------------------------------------------

  /** What one use makes of the buffer, or nothing where it runs off its end. */
  function Effect(m: seq<real>, a: Accessor, role: Role): (r: Option<seq<real>>)
    requires Packed(a) && Fits(a, |m|)
    ensures r.Some? ==> |r.value| == |m|
  {
    assert forall e: nat :: e < a.count ==> Cell(a, e, 0) < |m|;
    match role
    case Direction => Some(NegatedX(m, a, false, a.count))
    case Tangent => if Reaches(a, 3, |m|) then Some(NegatedX(m, a, true, a.count)) else None
    case Winding => Some(Rewinding(m, a, a.count / 3))
    case BindMatrix => if Reaches(a, LAST_MIXED, |m|) then Some(Mirroring(m, a, a.count)) else None
  }

  ghost predicate Laid(accessors: seq<Accessor>, length: nat) {
    forall i :: 0 <= i < |accessors| ==> Packed(accessors[i]) && Fits(accessors[i], length)
  }

  /** Each accessor used by its first use, in order. There is no such accessor, or one runs
      off the end: no conversion. */
  function Converted(m: seq<real>, accessors: seq<Accessor>, visits: seq<Visit>): (r: Option<seq<real>>)
    requires Laid(accessors, |m|)
    ensures r.Some? ==> |r.value| == |m|
  {
    if visits == [] then Some(m)
    else
      var before, last := Converted(m, accessors, visits[..|visits| - 1]), visits[|visits| - 1];
      if before.None? || last.accessor >= |accessors| then None
      else if last.accessor in FirstRoles(visits[..|visits| - 1]) then before
      else Effect(before.value, accessors[last.accessor], last.role)
  }

  /** What one more use adds. */
  lemma OneMoreUse(m: seq<real>, accessors: seq<Accessor>, visits: seq<Visit>, v: Visit)
    requires Laid(accessors, |m|) && Converted(m, accessors, visits).Some?
    ensures FirstRoles(visits + [v]) ==
      if v.accessor in FirstRoles(visits) then FirstRoles(visits) else FirstRoles(visits)[v.accessor := v.role]
    ensures Converted(m, accessors, visits + [v]) ==
      if v.accessor >= |accessors| then None
      else if v.accessor in FirstRoles(visits) then Converted(m, accessors, visits)
      else Effect(Converted(m, accessors, visits).value, accessors[v.accessor], v.role)
  {
    hide Effect;
    assert (visits + [v])[..|visits|] == visits;
  }

  /** Nothing that comes after mends it. */
  lemma {:induction false} NothingMends(m: seq<real>, accessors: seq<Accessor>, visits: seq<Visit>, more: seq<Visit>)
    requires Laid(accessors, |m|) && Converted(m, accessors, visits).None?
    ensures Converted(m, accessors, visits + more).None?
  {
    hide Laid, Effect, FirstRoles;
    if more == [] {
      assert visits + more == visits;
    } else {
      NothingMends(m, accessors, visits, more[..|more| - 1]);
      assert (visits + more)[..|visits + more| - 1] == visits + more[..|more| - 1];
    }
  }

  lemma EffectFlips(m: seq<real>, a: Accessor, role: Role)
    requires Packed(a) && Fits(a, |m|) && Suits(a, role)
    ensures Effect(m, a, role).Some? && Flipped(m, Effect(m, a, role).value, a, role)
  {
    hide Flipped, Cell;
    match role {
      case Direction => NegatedFlips(m, a, false);
      case Tangent => NegatedFlips(m, a, true);
      case Winding => RewindingFlips(m, a);
      case BindMatrix => MirroringFlips(m, a);
    }
  }

  /** Where accessors do not overlap and each has the components its uses touch, every one
      used comes out flipped, once, by what it is first used for, and nothing else changes. */
  lemma {:induction false} ConvertedFlips(m: seq<real>, accessors: seq<Accessor>, visits: seq<Visit>)
    requires WellLaid(accessors, |m|) && AllSuit(accessors, visits)
    ensures Converted(m, accessors, visits).Some?
    ensures AllFlipped(m, Converted(m, accessors, visits).value, accessors, FirstRoles(visits))
  {
    hide Effect, Suits, AllFlipped, Packed, Fits;
    if visits == [] {
      NothingFlipped(m, accessors);
    } else {
      var prior, last := visits[..|visits| - 1], visits[|visits| - 1];
      assert last in visits && forall v :: v in prior ==> v in visits;
      ConvertedFlips(m, accessors, prior);
      var before, i := Converted(m, accessors, prior).value, last.accessor;
      if i !in FirstRoles(prior) {
        EffectFlips(before, accessors[i], last.role);
        OneMoreFlipped(m, before, Effect(before, accessors[i], last.role).value, accessors, FirstRoles(prior), i,
          last.role);
      }
    }
  }

  lemma NothingFlipped(m: seq<real>, accessors: seq<Accessor>)
    ensures AllFlipped(m, m, accessors, map[])
  {
  }

  // ----- each accessor once --------------------------------------------------------------------------------

  ghost predicate WellLaid(accessors: seq<Accessor>, length: nat) {
    && (forall i :: 0 <= i < |accessors| ==> Packed(accessors[i]) && Fits(accessors[i], length))
    && (forall i, j, c: nat ::
      0 <= i < |accessors| && 0 <= j < |accessors| && i != j && Owns(accessors[i], c) ==>
      !Owns(accessors[j], c))
  }

  ghost predicate OwnFlipped(before: seq<real>, after: seq<real>, a: Accessor, role: Role) {
    && |after| == |before| && Fits(a, |before|)
    && forall e: nat, k: nat :: e < a.count && k < a.width ==> after[Cell(a, e, k)] == Value(before, a, role, e, k)
  }

  /** Every accessor with a role is flipped by it, once, and nothing else has changed. */
  ghost predicate AllFlipped(before: seq<real>, after: seq<real>, accessors: seq<Accessor>, roles: map<nat, Role>) {
    && |after| == |before|
    && (forall i :: i in roles ==> i < |accessors| && OwnFlipped(before, after, accessors[i], roles[i]))
    && (forall c: nat ::
      c < |before| && (forall i :: i in roles && i < |accessors| ==> !Owns(accessors[i], c)) ==>
      after[c] == before[c])
  }

  /** Bounds turn round with the X of vectors and tangents. */
  ghost predicate AllBounds(before: seq<Bounds>, after: seq<Bounds>, roles: map<nat, Role>) {
    && |after| == |before|
    && forall i :: 0 <= i < |before| ==>
         after[i] == if i in roles && (roles[i] == Direction || roles[i] == Tangent) then SwappedBounds(before[i])
           else before[i]
  }

  lemma BoundsLength(before: seq<Bounds>, after: seq<Bounds>, roles: map<nat, Role>)
    requires AllBounds(before, after, roles)
    ensures |after| == |before|
  {
  }

  lemma BoundsOneMore(before: seq<Bounds>, after: seq<Bounds>, roles: map<nat, Role>, i: nat, role: Role)
    requires AllBounds(before, after, roles) && i < |after|
    ensures i !in roles ==>
      AllBounds(before,
        if role == Direction || role == Tangent then after[i := SwappedBounds(after[i])] else after,
        roles[i := role])
  {
    hide SwappedBounds;
  }

  lemma ValueIsOwn(s: seq<real>, t: seq<real>, a: Accessor, role: Role, e: nat, k: nat)
    requires Packed(a) && Fits(a, |s|) && |t| == |s| && e < a.count && k < a.width
    requires forall c: nat :: c < |s| && Owns(a, c) ==> s[c] == t[c]
    ensures Value(s, a, role, e, k) == Value(t, a, role, e, k)
  {
    assert Owns(a, Cell(a, e, k));
    if role == Winding && e / 3 < a.count / 3 && k == 0 {
      if e % 3 == 1 { assert Owns(a, Cell(a, e + 1, 0)); }
      if e % 3 == 2 { assert Owns(a, Cell(a, e - 1, 0)); }
    }
  }

  lemma OneMoreFlipped(before: seq<real>, middle: seq<real>, after: seq<real>, accessors: seq<Accessor>,
                       roles: map<nat, Role>, i: nat, role: Role)
    requires WellLaid(accessors, |before|) && AllFlipped(before, middle, accessors, roles)
    requires i < |accessors| && i !in roles && Flipped(middle, after, accessors[i], role)
    ensures AllFlipped(before, after, accessors, roles[i := role])
  {
    hide Cell, Value, Fits, Packed;
    NewlyFlipped(before, middle, after, accessors, roles, i, role);
    forall j | j in roles ensures OwnFlipped(before, after, accessors[j], roles[j]) {
      StillFlipped(before, middle, after, accessors, roles, i, role, j);
    }
  }

  lemma NewlyFlipped(before: seq<real>, middle: seq<real>, after: seq<real>, accessors: seq<Accessor>,
                     roles: map<nat, Role>, i: nat, role: Role)
    requires WellLaid(accessors, |before|) && AllFlipped(before, middle, accessors, roles)
    requires i < |accessors| && i !in roles && Flipped(middle, after, accessors[i], role)
    ensures OwnFlipped(before, after, accessors[i], role)
  {
    hide Cell, OwnFlipped;
    var a := accessors[i];
    forall c: nat | c < |before| && Owns(a, c) ensures middle[c] == before[c] {
      hide Owns;
    }
    forall e: nat, k: nat | e < a.count && k < a.width ensures after[Cell(a, e, k)] == Value(before, a, role, e, k) {
      ValueIsOwn(before, middle, a, role, e, k);
    }
    assert OwnFlipped(before, after, a, role) by { OwnIs(before, after, a, role); }
  }

  lemma OwnIs(before: seq<real>, after: seq<real>, a: Accessor, role: Role)
    requires |after| == |before| && Fits(a, |before|)
    requires forall e: nat, k: nat :: e < a.count && k < a.width ==>
      after[Cell(a, e, k)] == Value(before, a, role, e, k)
    ensures OwnFlipped(before, after, a, role)
  {
  }

  lemma StillFlipped(before: seq<real>, middle: seq<real>, after: seq<real>, accessors: seq<Accessor>,
                     roles: map<nat, Role>, i: nat, role: Role, j: nat)
    requires WellLaid(accessors, |before|) && AllFlipped(before, middle, accessors, roles)
    requires i < |accessors| && i !in roles && Flipped(middle, after, accessors[i], role)
    requires j in roles && j < |accessors|
    ensures OwnFlipped(before, after, accessors[j], roles[j])
  {
    hide Cell, Value;
    var a := accessors[j];
    assert OwnFlipped(before, middle, a, roles[j]);
    forall e: nat, k: nat | e < a.count && k < a.width ensures after[Cell(a, e, k)] == middle[Cell(a, e, k)] {
      assert Owns(a, Cell(a, e, k)) && !Owns(accessors[i], Cell(a, e, k));
    }
  }

  // ----- what the flipped buffers hold ------------------------------------------------------------------------

  function VectorAt(m: seq<real>, a: Accessor, e: nat): Vec3
    requires Fits(a, |m|) && e < a.count && a.width >= 3
  {
    Vec3(m[Cell(a, e, 0)], m[Cell(a, e, 1)], m[Cell(a, e, 2)])
  }

  function MatrixAt(m: seq<real>, a: Accessor, e: nat): Matrix
    requires Fits(a, |m|) && e < a.count && a.width >= 16
  {
    seq(16, k requires 0 <= k < 16 => m[Cell(a, e, k)])
  }

  /** A flipped position, normal or tangent is the mirror image of what it was. */
  lemma VectorsMirrored(before: seq<real>, after: seq<real>, a: Accessor, role: Role, e: nat)
    requires OwnFlipped(before, after, a, role) && (role == Direction || role == Tangent) && e < a.count && a.width >= 3
    ensures VectorAt(after, a, e) == MirrorVector(VectorAt(before, a, e))
  {
    hide Cell;
  }

  /** A flipped inverse bind matrix is M A M. */
  lemma MatricesMirrored(before: seq<real>, after: seq<real>, a: Accessor, e: nat)
    requires OwnFlipped(before, after, a, BindMatrix) && e < a.count && a.width >= 16
    ensures MatrixAt(after, a, e) == MirrorMatrix(MatrixAt(before, a, e))
  {
    hide Cell;
    forall k: nat | k < 16 ensures MatrixAt(after, a, e)[k] == MirrorMatrix(MatrixAt(before, a, e))[k] {
      assert after[Cell(a, e, k)] == Value(before, a, BindMatrix, e, k);
    }
  }

  /** A whole triangle of a rewound index list has its last two corners exchanged; what is
      left over at the end stays. */
  lemma CornersExchanged(before: seq<real>, after: seq<real>, a: Accessor, triangle: nat)
    requires OwnFlipped(before, after, a, Winding) && a.width >= 1 && triangle < a.count / 3
    ensures var first := triangle * 3;
      && after[Cell(a, first, 0)] == before[Cell(a, first, 0)]
      && after[Cell(a, first + 1, 0)] == before[Cell(a, first + 2, 0)]
      && after[Cell(a, first + 2, 0)] == before[Cell(a, first + 1, 0)]
  {
    hide Cell;
    var first := triangle * 3;
    assert after[Cell(a, first, 0)] == Value(before, a, Winding, first, 0);
    assert after[Cell(a, first + 1, 0)] == Value(before, a, Winding, first + 1, 0);
    assert after[Cell(a, first + 2, 0)] == Value(before, a, Winding, first + 2, 0);
  }

  lemma ValueTwice(m: seq<real>, r: seq<real>, a: Accessor, role: Role, e: nat, k: nat)
    requires Packed(a) && OwnFlipped(m, r, a, role) && e < a.count && k < a.width
    ensures Value(r, a, role, e, k) == m[Cell(a, e, k)]
  {
    hide Cell, Mixed;
    if role == Winding {
      hide Value, OwnFlipped, Packed, Fits;
      if k != 0 || e / 3 >= a.count / 3 || e % 3 == 0 {
        StayedTwice(m, r, a, e, k);
      } else {
        CornerTwice(m, r, a, e);
      }
    } else {
      assert r[Cell(a, e, k)] == Value(m, a, role, e, k);
    }
  }

  lemma WindingValue(m: seq<real>, a: Accessor, triangle: nat)
    requires Packed(a) && Fits(a, |m|) && triangle < a.count / 3
    ensures triangle * 3 + 2 < a.count
    ensures Value(m, a, Winding, triangle * 3 + 1, 0) == m[Cell(a, triangle * 3 + 2, 0)]
    ensures Value(m, a, Winding, triangle * 3 + 2, 0) == m[Cell(a, triangle * 3 + 1, 0)]
  {
    hide Cell;
  }

  lemma CornersTwice(m: seq<real>, r: seq<real>, a: Accessor, triangle: nat)
    requires Packed(a) && OwnFlipped(m, r, a, Winding) && triangle < a.count / 3
    ensures triangle * 3 + 2 < a.count
    ensures Value(r, a, Winding, triangle * 3 + 1, 0) == m[Cell(a, triangle * 3 + 1, 0)]
    ensures Value(r, a, Winding, triangle * 3 + 2, 0) == m[Cell(a, triangle * 3 + 2, 0)]
  {
    hide Cell, Value;
    WindingValue(r, a, triangle);
    CornersExchanged(m, r, a, triangle);
  }

  lemma CornerTwice(m: seq<real>, r: seq<real>, a: Accessor, e: nat)
    requires Packed(a) && OwnFlipped(m, r, a, Winding) && e < a.count
    requires e / 3 < a.count / 3 && e % 3 != 0
    ensures Value(r, a, Winding, e, 0) == m[Cell(a, e, 0)]
  {
    hide Cell, Value;
    CornersTwice(m, r, a, e / 3);
    Corner(e, e / 3);
    if e % 3 == 1 {
      assert e == e / 3 * 3 + 1;
    } else {
      assert e == e / 3 * 3 + 2;
    }
  }

  lemma StayedTwice(m: seq<real>, r: seq<real>, a: Accessor, e: nat, k: nat)
    requires Packed(a) && OwnFlipped(m, r, a, Winding) && e < a.count && k < a.width
    requires k != 0 || e / 3 >= a.count / 3 || e % 3 == 0
    ensures Value(r, a, Winding, e, k) == m[Cell(a, e, k)]
  {
    hide Cell;
    assert r[Cell(a, e, k)] == Value(m, a, Winding, e, k);
  }

  lemma FlippedTwice(m: seq<real>, r: seq<real>, z: seq<real>, accessors: seq<Accessor>, roles: map<nat, Role>)
    requires WellLaid(accessors, |m|) && AllFlipped(m, r, accessors, roles) && AllFlipped(r, z, accessors, roles)
    ensures z == m
  {
    forall c: nat | c < |m| ensures z[c] == m[c] {
      if i :| i in roles && Owns(accessors[i], c) {
        var e: nat, k: nat :| e < accessors[i].count && k < accessors[i].width && Cell(accessors[i], e, k) == c;
        hide Cell, Value, Owns, Packed;
        assert OwnFlipped(m, r, accessors[i], roles[i]) && OwnFlipped(r, z, accessors[i], roles[i]);
        ValueTwice(m, r, accessors[i], roles[i], e, k);
      }
    }
  }

  /** Where each accessor suits its uses, converting the converted buffer gives back the
      one converted: nothing is lost. */
  lemma ConvertTwice(m: seq<real>, accessors: seq<Accessor>, visits: seq<Visit>)
    requires WellLaid(accessors, |m|) && AllSuit(accessors, visits)
    ensures Converted(m, accessors, visits).Some?
    ensures Converted(Converted(m, accessors, visits).value, accessors, visits) == Some(m)
  {
    hide AllFlipped, Converted, FirstRoles, Fits, Packed;
    ConvertedFlips(m, accessors, visits);
    var r := Converted(m, accessors, visits).value;
    ConvertedFlips(r, accessors, visits);
    FlippedTwice(m, r, Converted(r, accessors, visits).value, accessors, FirstRoles(visits));
  }

  class Converter {
    const m: array<real>
    const bounds: array<Bounds>
    const accessors: seq<Accessor>
    ghost const m0: seq<real>
    ghost const bounds0: seq<Bounds>
    var mirrored: set<nat>
    ghost var visits: seq<Visit>

    constructor (m: array<real>, bounds: array<Bounds>, accessors: seq<Accessor>)
      requires Laid(accessors, m.Length) && bounds.Length == |accessors|
      ensures this.m == m && this.bounds == bounds && this.accessors == accessors
      ensures m0 == m[..] && bounds0 == bounds[..] && visits == [] && Valid()
    {
      this.m, this.bounds, this.accessors := m, bounds, accessors;
      m0, bounds0, mirrored, visits := m[..], bounds[..], {}, [];
    }

    ghost predicate Valid()
      reads this, m, bounds
    {
      && Laid(accessors, |m0|) && |bounds0| == |accessors|
      && mirrored == FirstRoles(visits).Keys
      && Converted(m0, accessors, visits) == Some(m[..])
      && AllBounds(bounds0, bounds[..], FirstRoles(visits))
    }

    /** These visits can be made, one after the other. */
    ghost predicate Possible(visits: seq<Visit>)
    {
      Laid(accessors, |m0|) && Converted(m0, accessors, visits).Some?
    }

    method Apply(i: nat, role: Role) returns (done: bool)
      requires i < |accessors| == bounds.Length && Packed(accessors[i]) && Fits(accessors[i], m.Length)
      modifies m, bounds
      ensures done <==> Effect(old(m[..]), accessors[i], role).Some?
      ensures done ==> Effect(old(m[..]), accessors[i], role) == Some(m[..])
      ensures done && (role == Direction || role == Tangent) ==>
        bounds[..] == old(bounds[..])[i := SwappedBounds(old(bounds[i]))]
      ensures done && role != Direction && role != Tangent ==> bounds[..] == old(bounds[..])
    {
      assert forall e: nat :: e < accessors[i].count ==> Cell(accessors[i], e, 0) < m.Length;
      hide Cell;
      match role {
        case Direction => done := NegateX(m, bounds, i, accessors[i], false);
        case Tangent => done := NegateX(m, bounds, i, accessors[i], true);
        case Winding =>
          ReverseWinding(m, accessors[i]);
          done := true;
        case BindMatrix => done := MirrorBindMatrices(m, accessors[i]);
      }
    }

    /** An accessor is flipped the first time it is met. */
    method Use(index: Option<nat>, role: Role) returns (done: bool)
      requires Valid()
      modifies this, m, bounds
      ensures done <==> Possible(old(visits) + Used(index, role))
      ensures done ==> Valid() && visits == old(visits) + Used(index, role)
    {
      if index.None? {
        assert visits + Used(index, role) == visits;
        return true;
      }
      OneMoreUse(m0, accessors, visits, Visit(index.value, role));
      if index.value >= |accessors| {
        return false;
      }
      hide Effect, Fits, Packed, Converted, FirstRoles, AllBounds, SwappedBounds;
      if index.value in mirrored {
        visits := visits + [Visit(index.value, role)];
        return true;
      }
      done := Flip(index.value, role);
    }

    method Flip(i: nat, role: Role) returns (done: bool)
      requires Valid() && i < |accessors| && i !in mirrored
      modifies this, m, bounds
      ensures done <==> Possible(old(visits) + [Visit(i, role)])
      ensures done ==> Valid() && visits == old(visits) + [Visit(i, role)]
    {
      OneMoreUse(m0, accessors, visits, Visit(i, role));
      BoundsLength(bounds0, bounds[..], FirstRoles(visits));
      BoundsOneMore(bounds0, bounds[..], FirstRoles(visits), i, role);
      hide Effect, Fits, Packed, Converted, FirstRoles, AllBounds, SwappedBounds;
      visits := visits + [Visit(i, role)];
      done := Apply(i, role);
      mirrored := mirrored + {i};
    }

    method UseAttributes(a: Attributes) returns (done: bool)
      requires Valid()
      modifies this, m, bounds
      ensures done <==> Possible(old(visits) + AttributeVisits(a))
      ensures done ==> Valid() && visits == old(visits) + AttributeVisits(a)
    {
      hide Valid, Possible, Used;
      ghost var v0, p, n, t := visits, Used(a.position, Direction), Used(a.normal, Direction), Used(a.tangent, Tangent);
      assert v0 + p + n + t == v0 + AttributeVisits(a);
      done := Use(a.position, Direction);
      if !done {
        StaysImpossible(v0 + p, n + t);
        assert v0 + p + (n + t) == v0 + p + n + t;
        return;
      }
      done := Use(a.normal, Direction);
      if !done {
        StaysImpossible(v0 + p + n, t);
        return;
      }
      done := Use(a.tangent, Tangent);
    }

    lemma StaysImpossible(before: seq<Visit>, more: seq<Visit>)
      requires !Possible(before)
      ensures !Possible(before + more)
    {
      if Laid(accessors, |m0|) {
        NothingMends(m0, accessors, before, more);
      }
    }

    method ConvertPrimitive(p: Primitive) returns (done: bool)
      requires Valid()
      modifies this, m, bounds
      ensures done <==> p.mode == TRIANGLES && p.indices.Some? && Possible(old(visits) + PrimitiveVisits(p))
      ensures done ==> Valid() && visits == old(visits) + PrimitiveVisits(p)
    {
      hide Valid, Possible, AttributeVisits;
      if p.mode != TRIANGLES {
        return false;
      }
      ghost var v0 := visits;
      assert p.targets[..|p.targets|] == p.targets;
      for t := 0 to |p.targets|
        invariant Valid() && visits == v0 + TargetVisits(p.targets[..t])
      {
        TargetsPart(p.targets, t);
        assert v0 + TargetVisits(p.targets[..t]) + AttributeVisits(p.targets[t])
          == v0 + TargetVisits(p.targets[..t + 1]);
        done := UseAttributes(p.targets[t]);
        if !done {
          ghost var rest := TargetsRest(p.targets, t + 1);
          StaysImpossible(v0 + TargetVisits(p.targets[..t + 1]), rest + Used(p.indices, Winding));
          assert v0 + TargetVisits(p.targets[..t + 1]) + (rest + Used(p.indices, Winding)) == v0 + PrimitiveVisits(p);
          return;
        }
      }
      if p.indices.None? {
        return false;
      }
      assert v0 + TargetVisits(p.targets) + Used(p.indices, Winding) == v0 + PrimitiveVisits(p);
      done := Use(p.indices, Winding);
    }

    method ConvertMesh(primitives: seq<Primitive>) returns (done: bool)
      requires Valid()
      modifies this, m, bounds
      ensures done <==>
        && Possible(old(visits) + MeshVisits(primitives))
        && forall p :: p in primitives ==> p.mode == TRIANGLES && p.indices.Some?
      ensures done ==> Valid() && visits == old(visits) + MeshVisits(primitives)
    {
      hide Valid, Possible, PrimitiveVisits;
      ghost var v0 := visits;
      assert primitives[..|primitives|] == primitives;
      for k := 0 to |primitives|
        invariant Valid() && visits == v0 + MeshVisits(primitives[..k])
        invariant forall i :: 0 <= i < k ==> primitives[i].mode == TRIANGLES && primitives[i].indices.Some?
      {
        MeshPart(primitives, k);
        assert v0 + MeshVisits(primitives[..k]) + PrimitiveVisits(primitives[k])
          == v0 + MeshVisits(primitives[..k + 1]);
        done := ConvertPrimitive(primitives[k]);
        if !done {
          ghost var rest := MeshRest(primitives, k + 1);
          assert v0 + MeshVisits(primitives[..k + 1]) + rest == v0 + MeshVisits(primitives);
          if !Possible(v0 + MeshVisits(primitives[..k + 1])) {
            StaysImpossible(v0 + MeshVisits(primitives[..k + 1]), rest);
          }
          return;
        }
      }
      PossibleSoFar();
      return true;
    }

    lemma PossibleSoFar()
      requires Valid()
      ensures Possible(visits)
    {
    }

    method ConvertMeshes(meshes: seq<seq<Primitive>>) returns (done: bool)
      requires Valid() && visits == []
      modifies this, m, bounds
      ensures done <==> Convertible(meshes) && Possible(MeshesVisits(meshes))
      ensures done ==> Valid() && visits == MeshesVisits(meshes)
    {
      hide Valid, Possible, MeshVisits;
      assert meshes[..|meshes|] == meshes;
      for k := 0 to |meshes|
        invariant Valid() && visits == MeshesVisits(meshes[..k])
        invariant forall i, p :: 0 <= i < k && p in meshes[i] ==> p.mode == TRIANGLES && p.indices.Some?
      {
        MeshesPart(meshes, k);
        done := ConvertMesh(meshes[k]);
        if !done {
          ghost var rest := MeshesRest(meshes, k + 1);
          if !Possible(MeshesVisits(meshes[..k + 1])) {
            StaysImpossible(MeshesVisits(meshes[..k + 1]), rest);
          }
          return;
        }
      }
      PossibleSoFar();
      return true;
    }

    method ConvertSkins(skins: seq<Option<nat>>) returns (done: bool)
      requires Valid()
      modifies this, m, bounds
      ensures done <==> Possible(old(visits) + SkinVisits(skins))
      ensures done ==> Valid() && visits == old(visits) + SkinVisits(skins)
    {
      hide Valid, Possible;
      ghost var v0 := visits;
      assert skins[..|skins|] == skins;
      for k := 0 to |skins|
        invariant Valid() && visits == v0 + SkinVisits(skins[..k])
      {
        SkinsPart(skins, k);
        assert v0 + SkinVisits(skins[..k]) + Used(skins[k], BindMatrix) == v0 + SkinVisits(skins[..k + 1]);
        done := Use(skins[k], BindMatrix);
        if !done {
          ghost var rest := SkinsRest(skins, k + 1);
          assert v0 + SkinVisits(skins[..k + 1]) + rest == v0 + SkinVisits(skins);
          StaysImpossible(v0 + SkinVisits(skins[..k + 1]), rest);
          return;
        }
      }
      PossibleSoFar();
      return true;
    }

    /** Every mesh and then every skin. What stops it is a primitive that is not an indexed
        triangle list, an accessor that is not there, or a use that runs off the end of the
        buffer. Otherwise the buffer holds what the uses in order, each accessor's first and
        no other, make of it; and where each accessor has the components its uses touch and
        none overlap, that is every accessor used flipped once and nothing else changed. */
    method Convert(meshes: seq<seq<Primitive>>, skins: seq<Option<nat>>) returns (done: bool)
      requires Valid() && visits == []
      modifies this, m, bounds
      ensures done <==> Convertible(meshes) && Possible(AllVisits(meshes, skins))
      ensures done ==>
        && Laid(accessors, |m0|) && Converted(m0, accessors, AllVisits(meshes, skins)) == Some(m[..])
        && AllBounds(bounds0, bounds[..], FirstRoles(AllVisits(meshes, skins)))
      ensures WellLaid(accessors, |m0|) && AllSuit(accessors, AllVisits(meshes, skins)) ==>
        && (done <==> Convertible(meshes))
        && (done ==> AllFlipped(m0, m[..], accessors, FirstRoles(AllVisits(meshes, skins))))
    {
      hide Suits, MeshesVisits, SkinVisits, FirstRoles, AllFlipped, AllBounds, WellLaid, Laid, Converted, Convertible,
        AllSuit;
      if WellLaid(accessors, |m0|) && AllSuit(accessors, AllVisits(meshes, skins)) {
        ConvertedFlips(m0, accessors, AllVisits(meshes, skins));
      }
      done := ConvertMeshes(meshes);
      if !done {
        if !Possible(MeshesVisits(meshes)) {
          StaysImpossible(MeshesVisits(meshes), SkinVisits(skins));
        }
        return;
      }
      done := ConvertSkins(skins);
    }
  }

  function AllVisits(meshes: seq<seq<Primitive>>, skins: seq<Option<nat>>): seq<Visit> {
    MeshesVisits(meshes) + SkinVisits(skins)
  }

  lemma {:induction false} TargetsRest(targets: seq<Attributes>, k: nat) returns (rest: seq<Visit>)
    requires k <= |targets|
    ensures TargetVisits(targets[..k]) + rest == TargetVisits(targets)
  {
    if k == |targets| {
      assert targets[..k] == targets;
      rest := [];
    } else {
      rest := TargetsRest(targets[..|targets| - 1], k);
      assert targets[..|targets| - 1][..k] == targets[..k];
      rest := rest + AttributeVisits(targets[|targets| - 1]);
    }
  }

  lemma {:induction false} MeshRest(primitives: seq<Primitive>, k: nat) returns (rest: seq<Visit>)
    requires k <= |primitives|
    ensures MeshVisits(primitives[..k]) + rest == MeshVisits(primitives)
  {
    if k == |primitives| {
      assert primitives[..k] == primitives;
      rest := [];
    } else {
      rest := MeshRest(primitives[..|primitives| - 1], k);
      assert primitives[..|primitives| - 1][..k] == primitives[..k];
      rest := rest + PrimitiveVisits(primitives[|primitives| - 1]);
    }
  }

  lemma {:induction false} MeshesRest(meshes: seq<seq<Primitive>>, k: nat) returns (rest: seq<Visit>)
    requires k <= |meshes|
    ensures MeshesVisits(meshes[..k]) + rest == MeshesVisits(meshes)
  {
    if k == |meshes| {
      assert meshes[..k] == meshes;
      rest := [];
    } else {
      rest := MeshesRest(meshes[..|meshes| - 1], k);
      assert meshes[..|meshes| - 1][..k] == meshes[..k];
      rest := rest + MeshVisits(meshes[|meshes| - 1]);
    }
  }

  lemma {:induction false} SkinsRest(skins: seq<Option<nat>>, k: nat) returns (rest: seq<Visit>)
    requires k <= |skins|
    ensures SkinVisits(skins[..k]) + rest == SkinVisits(skins)
  {
    if k == |skins| {
      assert skins[..k] == skins;
      rest := [];
    } else {
      rest := SkinsRest(skins[..|skins| - 1], k);
      assert skins[..|skins| - 1][..k] == skins[..k];
      rest := rest + Used(skins[|skins| - 1], BindMatrix);
    }
  }

  lemma TargetsPart(targets: seq<Attributes>, k: nat)
    requires k < |targets|
    ensures TargetVisits(targets[..k + 1]) == TargetVisits(targets[..k]) + AttributeVisits(targets[k])
  {
    assert targets[..k + 1][..k] == targets[..k];
  }

  lemma MeshPart(primitives: seq<Primitive>, k: nat)
    requires k < |primitives|
    ensures MeshVisits(primitives[..k + 1]) == MeshVisits(primitives[..k]) + PrimitiveVisits(primitives[k])
  {
    hide PrimitiveVisits;
    assert primitives[..k + 1][..k] == primitives[..k];
  }

  lemma MeshesPart(meshes: seq<seq<Primitive>>, k: nat)
    requires k < |meshes|
    ensures MeshesVisits(meshes[..k + 1]) == MeshesVisits(meshes[..k]) + MeshVisits(meshes[k])
  {
    hide MeshVisits;
    assert meshes[..k + 1][..k] == meshes[..k];
  }

  lemma SkinsPart(skins: seq<Option<nat>>, k: nat)
    requires k < |skins|
    ensures SkinVisits(skins[..k + 1]) == SkinVisits(skins[..k]) + Used(skins[k], BindMatrix)
  {
    assert skins[..k + 1][..k] == skins[..k];
  }
}
