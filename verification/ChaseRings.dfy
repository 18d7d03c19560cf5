/** Rings of standing places round a target that several agents are after. Angles are in a
    turn of `turn`; a ring's angular spacing is given, ring by ring. */
module ChaseRings {
  import opened Geometry
  import opened Sorting
  import opened Wrappers

  /** A `target` of 0 is none; `rank` is how far off it counts as being. */
  datatype Chaser = Chaser(id: nat, target: nat, bearing: real, rank: real)

  datatype Slot = Slot(target: nat, ring: nat, angle: real)

  // ----- capacity -----------------------------------------------------------------------------

  /** Places a spacing apart that fit within `maxArc` either way. */
  function Capacity(gap: real, maxArc: real): (c: nat)
    requires gap > 0.0 && maxArc >= 0.0
    ensures c >= 1
  {
    if gap > 2.0 * maxArc then 1 else (2.0 * maxArc / gap).Floor + 1
  }

  function CapAt(gap: real, maxArc: real): (c: nat)
    ensures c >= 1
  {
    if gap > 0.0 && maxArc >= 0.0 then Capacity(gap, maxArc) else 1
  }

  /** Each ring's capacity, from its own spacing. */
  function CapsFor(gaps: nat -> real, maxArc: real): nat -> nat {
    (r: nat) => CapAt(gaps(r), maxArc)
  }

  lemma CapsPositive(gaps: nat -> real, maxArc: real)
    ensures forall r: nat :: CapsFor(gaps, maxArc)(r) >= 1
  {
    forall r: nat ensures CapsFor(gaps, maxArc)(r) >= 1 {
      assert CapsFor(gaps, maxArc)(r) == CapAt(gaps(r), maxArc);
    }
  }

  function HalfSpread(count: nat, gap: real): real {
    (count as real - 1.0) * gap / 2.0
  }

  /** A ring within its capacity spreads by no more than `maxArc` either way. */
  lemma SpreadWithinArc(count: nat, gap: real, maxArc: real)
    requires gap > 0.0 && maxArc >= 0.0 && 1 <= count <= Capacity(gap, maxArc)
    ensures HalfSpread(count, gap) <= maxArc
  {
    if count > 1 {
      var most := 2.0 * maxArc / gap;
      assert most * gap == 2.0 * maxArc;
      assert (count - 1) as real <= most;
      ScaleOrder(count as real - 1.0, most, gap);
    }
  }

  /** And its capacity is the most that do: one more than the spacings the two ways have room for. */
  lemma CapacityIsLargest(spaces: nat, gap: real, maxArc: real)
    requires gap > 0.0 && maxArc >= 0.0
    ensures spaces + 1 <= Capacity(gap, maxArc) <==> spaces as real * gap <= 2.0 * maxArc
  {
    hide *;
    var n := spaces as real;
    if gap > 2.0 * maxArc {
      OneFits(gap, maxArc);
      ScaleOrder(n, 0.0, gap);
      ScaleOrder(1.0, n, gap);
    } else {
      var most := ManyFit(gap, maxArc);
      assert spaces + 1 <= Capacity(gap, maxArc) <==> n <= most;
      ScaleOrder(n, most, gap);
      assert n <= most <==> n * gap <= 2.0 * maxArc;
    }
  }

  lemma OneFits(gap: real, maxArc: real)
    requires gap > 2.0 * maxArc >= 0.0
    ensures Capacity(gap, maxArc) == 1
  {
  }

  lemma ManyFit(gap: real, maxArc: real) returns (most: real)
    requires 0.0 < gap <= 2.0 * maxArc
    ensures most * gap == 2.0 * maxArc && Capacity(gap, maxArc) == most.Floor + 1
  {
    most := 2.0 * maxArc / gap;
  }

  // ----- which ring: in rank order, each filled before the next ------------------------------------

  function RingAt(caps: nat -> nat, p: nat, ring: nat): nat
    requires forall r :: caps(r) >= 1
    decreases p
  {
    if p < caps(ring) then ring else RingAt(caps, p - caps(ring), ring + 1)
  }

  /** How many places the rings from `from` up to `ring` have. */
  function Places(caps: nat -> nat, from: nat, ring: nat): nat
    requires from <= ring
    decreases ring - from
  {
    if from == ring then 0 else caps(from) + Places(caps, from + 1, ring)
  }

  /** Ring `r` has exactly the positions its capacity gives it, after all rings inside it. */
  lemma {:induction false} RingHolds(caps: nat -> nat, p: nat, from: nat, r: nat)
    requires (forall k :: caps(k) >= 1) && from <= r
    ensures RingAt(caps, p, from) == r <==> Places(caps, from, r) <= p < Places(caps, from, r) + caps(r)
    decreases r - from
  {
    if p >= caps(from) {
      if from < r {
        RingHolds(caps, p - caps(from), from + 1, r);
      } else {
        OuterRing(caps, p - caps(from), from + 1);
      }
    }
  }

  lemma {:induction false} OuterRing(caps: nat -> nat, p: nat, from: nat)
    requires forall k :: caps(k) >= 1
    ensures RingAt(caps, p, from) >= from
    decreases p
  {
    if p >= caps(from) {
      OuterRing(caps, p - caps(from), from + 1);
    }
  }

  /** Whoever ranks better never sits further out. */
  lemma {:induction false} BetterRankInside(caps: nat -> nat, p: nat, q: nat, from: nat)
    requires (forall k :: caps(k) >= 1) && p <= q
    ensures RingAt(caps, p, from) <= RingAt(caps, q, from)
    decreases q
  {
    if p >= caps(from) {
      BetterRankInside(caps, p - caps(from), q - caps(from), from + 1);
    } else {
      OuterRing(caps, q, from);
    }
  }

  // ----- bearings round a ring -----------------------------------------------------------------------

  predicate Ascending(b: seq<real>) {
    forall i, j :: 0 <= i < j < |b| ==> b[i] <= b[j]
  }

  /** From bearing `k` on to the next one round. */
  function GapAfter(b: seq<real>, k: nat, turn: real): real
    requires k < |b|
  {
    if k + 1 < |b| then b[k + 1] - b[k] else b[0] + turn - b[k]
  }

  function Following(k: nat, count: nat): (f: nat)
    requires k < count
    ensures f < count
  {
    if k + 1 < count then k + 1 else 0
  }

  /** The bearings from `start` on, those past the end a turn further. */
  function Unwrapped(b: seq<real>, start: nat, turn: real): (u: seq<real>)
    requires start < |b|
    ensures |u| == |b|
  {
    seq(|b|, k requires 0 <= k < |b| => if start + k < |b| then b[start + k] else b[start + k - |b|] + turn)
  }

  lemma FollowingIsNext(k: nat, count: nat)
    requires k < count
    ensures (k + 1) % count == Following(k, count)
  {
  }

  /** The first gap that is so wide. */
  predicate FirstGap(b: seq<real>, k: nat, turn: real, widest: real)
    requires k < |b|
  {
    GapAfter(b, k, turn) == widest && forall i :: 0 <= i < k ==> GapAfter(b, i, turn) < widest
  }

  /** The first of the widest gaps, and the bearing after it. */
  method WidestGap(b: seq<real>, turn: real) returns (start: nat, widest: real)
    requires b != [] && Ascending(b) && b[|b| - 1] - b[0] <= turn
    ensures start < |b|
    ensures forall k :: 0 <= k < |b| ==> GapAfter(b, k, turn) <= widest
    ensures exists k :: 0 <= k < |b| && FirstGap(b, k, turn, widest) && start == Following(k, |b|)
  {
    hide Following;
    start, widest := 0, -1.0;
    ghost var at: nat := 0;
    for k := 0 to |b|
      invariant k == 0 ==> widest == -1.0
      invariant k > 0 ==> at < k && FirstGap(b, at, turn, widest) && start == Following(at, |b|)
      invariant forall i :: 0 <= i < k ==> GapAfter(b, i, turn) <= widest
    {
      var next := if k + 1 < |b| then b[k + 1] else b[0] + turn;
      FollowingIsNext(k, |b|);
      if next - b[k] > widest {
        widest, start, at := next - b[k], (k + 1) % |b|, k;
      }
    }
  }

  /** Cut anywhere, the bearings run one way, and span the turn less the gap they are cut at. */
  lemma CutSpan(b: seq<real>, turn: real, k: nat)
    requires Ascending(b) && k < |b| && b[|b| - 1] - b[0] <= turn
    ensures var u := Unwrapped(b, Following(k, |b|), turn);
      Ascending(u) && u[|b| - 1] - u[0] == turn - GapAfter(b, k, turn)
  {
  }

  /** Cut at the widest gap they span the least they can. */
  lemma WidestSpansLeast(b: seq<real>, turn: real, k: nat, other: nat)
    requires Ascending(b) && k < |b| && other < |b| && b[|b| - 1] - b[0] <= turn
    requires forall i :: 0 <= i < |b| ==> GapAfter(b, i, turn) <= GapAfter(b, k, turn)
    ensures var u, v := Unwrapped(b, Following(k, |b|), turn), Unwrapped(b, Following(other, |b|), turn);
      u[|b| - 1] - u[0] <= v[|b| - 1] - v[0]
  {
    CutSpan(b, turn, k);
    CutSpan(b, turn, other);
  }

  // ----- the angles handed out --------------------------------------------------------------------------

  function Total(s: seq<real>): real {
    if s == [] then 0.0 else Total(s[..|s| - 1]) + s[|s| - 1]
  }

  function AngleAt(mean: real, k: nat, count: nat, gap: real): real {
    mean + (k as real - 0.5 * (count as real - 1.0)) * gap
  }

  /** Places a gap apart, from half the spread on one side of the mean to half on the other. */
  lemma AnglesSpread(mean: real, k: nat, count: nat, gap: real)
    requires k < count && gap > 0.0
    ensures AngleAt(mean, k + 1, count, gap) - AngleAt(mean, k, count, gap) == gap
    ensures mean - HalfSpread(count, gap) <= AngleAt(mean, k, count, gap) <= mean + HalfSpread(count, gap)
  {
    var n, x := count as real - 1.0, k as real;
    assert 0.0 <= x <= n;
    assert (x - 0.5 * n) * gap == x * gap - 0.5 * (n * gap);
    assert (x + 1.0 - 0.5 * n) * gap == (x - 0.5 * n) * gap + gap;
    ScaleOrder(0.0, x, gap);
    ScaleOrder(x, n, gap);
    assert HalfSpread(count, gap) == n * gap / 2.0;
  }

  /** Where the places of a ring are, given the mean of its members' bearings. */
  function MeanOf(u: seq<real>): real
    requires u != []
  {
    Total(u) / |u| as real
  }

  /** So many places apart from the mean that the first and the last are as far from it. */
  lemma PlacesCentred(mean: real, count: nat, gap: real)
    requires count > 0
    ensures AngleAt(mean, 0, count, gap) + AngleAt(mean, count - 1, count, gap) == 2.0 * mean
  {
    var n := count as real - 1.0;
    assert (0.0 - 0.5 * n) * gap + (n - 0.5 * n) * gap == (0.0 - 0.5 * n + (n - 0.5 * n)) * gap;
  }

  /** One bearing is its own mean, and each further one moves it by its share. */
  lemma MeanGrows(u: seq<real>, x: real)
    ensures MeanOf([x]) == x
    ensures u != [] ==> MeanOf(u + [x]) * (|u| + 1) as real == MeanOf(u) * |u| as real + x
  {
    assert [x][..0] == [] && Total([x]) == x;
    assert (u + [x])[..|u|] == u && Total(u + [x]) == Total(u) + x;
  }

  // ----- one ring -----------------------------------------------------------------------------------------

  ghost predicate Positions(ring: seq<nat>, count: nat) {
    && (forall k :: 0 <= k < |ring| ==> ring[k] < count)
    && (forall i, j :: 0 <= i < j < |ring| ==> ring[i] != ring[j])
  }

  function Bearings(members: seq<Chaser>, ring: seq<nat>): (b: seq<real>)
    requires forall k :: 0 <= k < |ring| ==> ring[k] < |members|
    ensures |b| == |ring|
  {
    seq(|ring|, k requires 0 <= k < |ring| => members[ring[k]].bearing)
  }

  /** By bearing, then by net id; a position out of range comes last. */
  function ByBearing(members: seq<Chaser>): (nat, nat) -> bool {
    (i: nat, j: nat) => i < |members| && (j >= |members| ||
      if members[i].bearing != members[j].bearing then members[i].bearing < members[j].bearing
      else members[i].id < members[j].id)
  }

  function ByRank(members: seq<Chaser>): (nat, nat) -> bool {
    (i: nat, j: nat) => i < |members| && (j >= |members| ||
      if members[i].rank != members[j].rank then members[i].rank < members[j].rank else members[i].id < members[j].id)
  }

  function Wrapped(k: nat, count: nat): nat
    requires k < 2 * count
    ensures Wrapped(k, count) < count
  {
    if k < count then k else k - count
  }

  ghost predicate InRange(order: seq<nat>, count: nat) {
    forall k :: 0 <= k < |order| ==> order[k] < count
  }

  /** Of two in the same direction the lower id comes first. */
  ghost predicate TiesById(members: seq<Chaser>, order: seq<nat>)
    requires InRange(order, |members|)
  {
    forall i, j :: 0 <= i < j < |order| && members[order[i]].bearing == members[order[j]].bearing ==>
      members[order[i]].id <= members[order[j]].id
  }

  /** A ring in bearing order, dealt its places from `start` round: the start follows the
      widest gap, and the places are centred on the mean of the bearings so unwrapped. */
  ghost predicate DealtFrom(spacing: seq<Option<Slot>>, members: seq<Chaser>, order: seq<nat>, start: nat, target: nat,
                            number: nat, gap: real, turn: real)
    requires start < |order| && InRange(order, |members|) && |members| == |spacing|
  {
    var b := Bearings(members, order);
    var u := Unwrapped(b, start, turn);
    && Ascending(b) && TiesById(members, order)
    && (exists k: nat :: k < |b| && StartsAfter(b, k, start, turn))
    && Seated(spacing, order, start, |order|, target, number, MeanOf(u), gap)
  }

  /** Who is `k`-th from the start round. */
  function Seat(order: seq<nat>, start: nat, k: nat): (i: nat)
    requires start < |order| && k < |order|
    ensures i in order
  {
    order[Wrapped(start + k, |order|)]
  }

  /** The first `n` from the start round have their places. */
  ghost predicate Seated(spacing: seq<Option<Slot>>, order: seq<nat>, start: nat, n: nat, target: nat, number: nat,
                         mean: real, gap: real)
    requires start < |order| && n <= |order| && InRange(order, |spacing|)
  {
    forall k: nat :: k < n ==>
      spacing[Seat(order, start, k)] == Some(Slot(target, number, AngleAt(mean, k, |order|, gap)))
  }

  lemma SeatNext(spacing: seq<Option<Slot>>, order: seq<nat>, start: nat, n: nat, target: nat, number: nat, mean: real,
                 gap: real)
    requires start < |order| && n < |order| && Positions(order, |spacing|) && InRange(order, |spacing|)
    requires Seated(spacing, order, start, n, target, number, mean, gap)
    ensures Seated(spacing[Seat(order, start, n) := Some(Slot(target, number, AngleAt(mean, n, |order|, gap)))],
                   order, start, n + 1, target, number, mean, gap)
  {
    hide AngleAt;
    forall k: nat | k < n ensures Seat(order, start, k) != Seat(order, start, n) {
      WrappedApart(start, k, n, |order|);
    }
  }

  ghost predicate StartsAfter(b: seq<real>, k: nat, start: nat, turn: real)
    requires k < |b|
  {
    && start == Following(k, |b|) && FirstGap(b, k, turn, GapAfter(b, k, turn))
    && forall i :: 0 <= i < |b| ==> GapAfter(b, i, turn) <= GapAfter(b, k, turn)
  }

  /** The ring's members, some order and start of them dealt so. */
  ghost predicate Dealt(spacing: seq<Option<Slot>>, members: seq<Chaser>, ring: seq<nat>, target: nat, number: nat,
                        gap: real, turn: real)
  {
    |members| == |spacing| &&
    exists order: seq<nat>, start: nat ::
      && SameMembers(order, ring) && start < |order| && InRange(order, |members|)
      && DealtFrom(spacing, members, order, start, target, number, gap, turn)
  }

  ghost predicate SameMembers(order: seq<nat>, ring: seq<nat>) {
    |order| == |ring| && forall k: nat :: k in order <==> k in ring
  }

  lemma BearingOrder(members: seq<Chaser>)
    ensures StrictWeak(ByBearing(members))
  {
  }

  lemma RankOrder(members: seq<Chaser>)
    ensures StrictWeak(ByRank(members))
  {
  }

  lemma OrderIs(members: seq<Chaser>, ring: seq<nat>, order: seq<nat>)
    requires Positions(ring, |members|) && order == StableSort(ByBearing(members), ring)
    ensures Positions(order, |members|) && SameMembers(order, ring) && InRange(order, |members|)
    ensures Ascending(Bearings(members, order)) && TiesById(members, order)
  {
    hide StrictWeak, StableSort, Positions;
    var less, tie := ByBearing(members), (i: nat, j: nat) => true;
    BearingOrder(members);
    SortOrders(less, tie, ring);
    SameElements(ring, order, |members|);
    PositionsInRange(order, |members|);
    forall i, j | 0 <= i < j < |order|
      ensures members[order[i]].bearing <= members[order[j]].bearing
      ensures members[order[i]].bearing == members[order[j]].bearing ==> members[order[i]].id <= members[order[j]].id
    {
      assert Before(less, tie, order[i], order[j]);
    }
  }

  lemma PositionsInRange(order: seq<nat>, count: nat)
    requires Positions(order, count)
    ensures InRange(order, count)
  {
  }

  lemma SameElements(ring: seq<nat>, order: seq<nat>, count: nat)
    requires Positions(ring, count) && multiset(order) == multiset(ring)
    ensures Positions(order, count) && forall k :: k in order <==> k in ring
  {
    forall k ensures k in order <==> k in ring {
      assert k in multiset(order) <==> k in multiset(ring);
    }
    forall i | 0 <= i < |order| ensures order[i] < count {
      assert order[i] in ring;
    }
    forall i, j | 0 <= i < j < |order| ensures order[i] != order[j] {
      OnceEach(ring, order[i]);
      if order[i] == order[j] {
        TwiceCounted(order, i, j);
      }
    }
  }

  lemma {:induction false} OnceEach(ring: seq<nat>, x: nat)
    requires forall i, j :: 0 <= i < j < |ring| ==> ring[i] != ring[j]
    ensures multiset(ring)[x] <= 1
  {
    if ring != [] {
      var last := |ring| - 1;
      assert ring == ring[..last] + [ring[last]];
      OnceEach(ring[..last], x);
      if ring[last] == x {
        assert x !in ring[..last];
        assert x !in multiset(ring[..last]);
      }
    }
  }

  lemma TwiceCounted(s: seq<nat>, i: nat, j: nat)
    requires i < j < |s| && s[i] == s[j]
    ensures multiset(s)[s[i]] >= 2
  {
    assert s == s[..j] + s[j..];
    assert s[i] in s[..j] && s[j] in s[j..];
    assert multiset(s) == multiset(s[..j]) + multiset(s[j..]);
    assert s[..j][i] in multiset(s[..j]) && s[j..][0] in multiset(s[j..]);
  }

  /** Deals one ring its places. */
  method PlaceRing(members: seq<Chaser>, ring: seq<nat>, target: nat, number: nat, gap: real, turn: real,
                   spacing: array<Option<Slot>>)
    requires ring != [] && Positions(ring, |members|) && spacing.Length == |members|
    requires OneTurn(members, turn)
    modifies spacing
    ensures Dealt(spacing[..], members, ring, target, number, gap, turn)
    ensures forall k :: 0 <= k < spacing.Length && k !in ring ==> spacing[k] == old(spacing[k])
  {
    var order := StableSort(ByBearing(members), ring);
    OrderIs(members, ring, order);
    assert order != [];
    WithinTurn(members, order, turn);
    var b := Bearings(members, order);
    hide *;
    var start, widest := WidestGap(b, turn);
    var mean := MeanOf(Unwrapped(b, start, turn));
    NobodySeated(spacing[..], order, start, target, number, mean, gap);
    for k := 0 to |order|
      invariant Seated(spacing[..], order, start, k, target, number, mean, gap)
      invariant forall i :: 0 <= i < spacing.Length && i !in ring ==> spacing[i] == old(spacing[i])
    {
      SeatNext(spacing[..], order, start, k, target, number, mean, gap);
      InRangeAt(order, |members|, Seat(order, start, k));
      StillMember(order, ring, Seat(order, start, k));
      spacing[Seat(order, start, k)] := Some(Slot(target, number, AngleAt(mean, k, |order|, gap)));
    }
    DealtNow(spacing[..], members, ring, order, start, widest, target, number, gap, turn);
  }

  lemma NobodySeated(spacing: seq<Option<Slot>>, order: seq<nat>, start: nat, target: nat, number: nat, mean: real,
                     gap: real)
    requires start < |order| && InRange(order, |spacing|)
    ensures Seated(spacing, order, start, 0, target, number, mean, gap)
  {
  }

  lemma InRangeAt(order: seq<nat>, count: nat, k: nat)
    requires InRange(order, count) && k in order
    ensures k < count
  {
  }

  lemma StillMember(order: seq<nat>, ring: seq<nat>, k: nat)
    requires SameMembers(order, ring) && k in order
    ensures k in ring
  {
  }

  lemma DealtNow(spacing: seq<Option<Slot>>, members: seq<Chaser>, ring: seq<nat>, order: seq<nat>, start: nat,
                 widest: real, target: nat, number: nat, gap: real, turn: real)
    requires SameMembers(order, ring) && start < |order| && InRange(order, |members|) && |members| == |spacing|
    requires Ascending(Bearings(members, order)) && TiesById(members, order)
    requires var b := Bearings(members, order);
      && (exists k :: 0 <= k < |b| && FirstGap(b, k, turn, widest) && start == Following(k, |b|))
      && (forall k :: 0 <= k < |b| ==> GapAfter(b, k, turn) <= widest)
      && Seated(spacing, order, start, |order|, target, number, MeanOf(Unwrapped(b, start, turn)), gap)
    ensures Dealt(spacing, members, ring, target, number, gap, turn)
  {
    hide Seated, GapAfter, Following, Ascending;
    var b := Bearings(members, order);
    var w: nat :| w < |b| && FirstGap(b, w, turn, widest) && start == Following(w, |b|);
    assert StartsAfter(b, w, start, turn);
    assert DealtFrom(spacing, members, order, start, target, number, gap, turn);
  }

  lemma WrappedApart(start: nat, i: nat, k: nat, count: nat)
    requires start < count && i < k < count
    ensures Wrapped(start + i, count) != Wrapped(start + k, count)
  {
  }

  /** Bearings are all taken within one turn. */
  ghost predicate OneTurn(members: seq<Chaser>, turn: real) {
    turn >= 0.0 && forall i, j :: 0 <= i < |members| && 0 <= j < |members| ==>
      members[i].bearing - members[j].bearing <= turn
  }

  lemma WithinTurn(members: seq<Chaser>, order: seq<nat>, turn: real)
    requires OneTurn(members, turn) && InRange(order, |members|) && order != []
    ensures var b := Bearings(members, order); b[|b| - 1] - b[0] <= turn
  {
  }

  // ----- all the rings round one target --------------------------------------------------------------

  /** The positions of ring `r` within the group. */
  function Slice(group: seq<nat>, from: nat, size: nat): seq<nat>
    requires from <= |group|
  {
    if from + size <= |group| then group[from..from + size] else group[from..]
  }

  /** Rings below `rings` are dealt, and every position of them has its ring's number. */
  ghost predicate RingsDealt(spacing: seq<Option<Slot>>, members: seq<Chaser>, group: seq<nat>, target: nat,
                             caps: nat -> nat, gaps: nat -> real, turn: real, rings: nat)
  {
    forall r: nat :: r < rings && Places(caps, 0, r) < |group| ==>
      Dealt(spacing, members, Slice(group, Places(caps, 0, r), caps(r)), target, r, gaps(r), turn)
  }

  /** Everyone of the group is on one of its rings. */
  ghost predicate GroupDealt(spacing: seq<Option<Slot>>, members: seq<Chaser>, group: seq<nat>, target: nat,
                             caps: nat -> nat, gaps: nat -> real, turn: real)
  {
    exists rings: nat :: Places(caps, 0, rings) >= |group|
      && RingsDealt(spacing, members, group, target, caps, gaps, turn, rings)
  }

  lemma {:induction false} PlacesNext(caps: nat -> nat, from: nat, r: nat)
    requires from <= r
    ensures Places(caps, from, r + 1) == Places(caps, from, r) + caps(r)
    decreases r - from
  {
    if from < r {
      PlacesNext(caps, from + 1, r);
    } else {
      assert Places(caps, r + 1, r + 1) == 0;
    }
  }

  lemma {:induction false} PlacesGrow(caps: nat -> nat, q: nat, r: nat)
    requires q < r
    ensures Places(caps, 0, q) + caps(q) <= Places(caps, 0, r)
    decreases r
  {
    PlacesNext(caps, 0, r - 1);
    if q < r - 1 {
      PlacesGrow(caps, q, r - 1);
    }
  }

  lemma DealtElsewhere(before: seq<Option<Slot>>, after: seq<Option<Slot>>, members: seq<Chaser>, ring: seq<nat>,
                       target: nat, number: nat, gap: real, turn: real)
    requires Dealt(before, members, ring, target, number, gap, turn) && |after| == |before|
    requires forall k :: k in ring && k < |before| ==> after[k] == before[k]
    ensures Dealt(after, members, ring, target, number, gap, turn)
  {
    hide AngleAt, MeanOf, Unwrapped, GapAfter, Ascending, StartsAfter;
    var order: seq<nat>, start: nat :|
      SameMembers(order, ring) && start < |order| && InRange(order, |members|)
      && DealtFrom(before, members, order, start, target, number, gap, turn);
    hide Seat;
    assert DealtFrom(after, members, order, start, target, number, gap, turn);
  }

  /** Ring after ring, the nearest first, until everyone of the group has a place. */
  method PlaceGroup(members: seq<Chaser>, group: seq<nat>, target: nat, caps: nat -> nat, gaps: nat -> real, turn: real,
                    spacing: array<Option<Slot>>)
    requires Positions(group, |members|) && spacing.Length == |members| && OneTurn(members, turn)
    requires forall r :: caps(r) >= 1
    modifies spacing
    ensures GroupDealt(spacing[..], members, group, target, caps, gaps, turn)
    ensures forall k :: 0 <= k < spacing.Length && k !in group ==> spacing[k] == old(spacing[k])
  {
    hide Dealt, OneTurn;
    var placed, number: nat := 0, 0;
    while placed < |group|
      invariant placed == if Places(caps, 0, number) <= |group| then Places(caps, 0, number) else |group|
      invariant RingsDealt(spacing[..], members, group, target, caps, gaps, turn, number)
      invariant forall k :: 0 <= k < spacing.Length && k !in group ==> spacing[k] == old(spacing[k])
      decreases |group| - placed
    {
      var ring := Slice(group, placed, caps(number));
      SlicePositions(group, placed, caps(number), |members|);
      PlacesNext(caps, 0, number);
      ghost var before := spacing[..];
      PlaceRing(members, ring, target, number, gaps(number), turn, spacing);
      forall r: nat | r < number && Places(caps, 0, r) < |group|
        ensures Dealt(spacing[..], members, Slice(group, Places(caps, 0, r), caps(r)), target, r, gaps(r), turn)
      {
        PlacesGrow(caps, r, number);
        SlicesApart(group, Places(caps, 0, r), caps(r), placed, caps(number), |members|);
        DealtElsewhere(before, spacing[..], members, Slice(group, Places(caps, 0, r), caps(r)), target, r, gaps(r),
          turn);
      }
      placed := placed + |ring|;
      number := number + 1;
    }
    assert Places(caps, 0, number) >= |group|;
  }

  lemma SlicePositions(group: seq<nat>, from: nat, size: nat, count: nat)
    requires Positions(group, count) && from < |group| && size >= 1
    ensures Positions(Slice(group, from, size), count) && Slice(group, from, size) != []
    ensures forall k :: k in Slice(group, from, size) ==> k in group
    ensures from + |Slice(group, from, size)| == if from + size <= |group| then from + size else |group|
  {
  }

  lemma SlicesApart(group: seq<nat>, p: nat, m: nat, q: nat, n: nat, count: nat)
    requires Positions(group, count) && p + m <= q <= |group|
    ensures forall k :: k in Slice(group, p, m) ==> k !in Slice(group, q, n)
  {
    var a, b := Slice(group, p, m), Slice(group, q, n);
    forall i, j | 0 <= i < |a| && 0 <= j < |b| ensures a[i] != b[j] {
      assert a[i] == group[p + i] && b[j] == group[q + j];
    }
  }

  /** So everyone has a place, on the ring its position in the ranking gives it. */
  lemma EveryonePlaced(spacing: seq<Option<Slot>>, members: seq<Chaser>, group: seq<nat>, target: nat, caps: nat -> nat,
                       gaps: nat -> real, turn: real, p: nat)
    requires (forall r :: caps(r) >= 1) && p < |group|
    requires Positions(group, |members|) && |spacing| == |members|
    requires GroupDealt(spacing, members, group, target, caps, gaps, turn)
    ensures group[p] < |spacing|
    ensures spacing[group[p]].Some? && spacing[group[p]].value.target == target
      && spacing[group[p]].value.ring == RingAt(caps, p, 0)
  {
    var rings: nat :| Places(caps, 0, rings) >= |group|
      && RingsDealt(spacing, members, group, target, caps, gaps, turn, rings);
    hide *;
    PlacedIn(spacing, members, group, target, caps, gaps, turn, p, rings);
  }

  lemma PlacedIn(spacing: seq<Option<Slot>>, members: seq<Chaser>, group: seq<nat>, target: nat, caps: nat -> nat,
                 gaps: nat -> real, turn: real, p: nat, rings: nat)
    requires (forall r :: caps(r) >= 1) && p < |group| <= Places(caps, 0, rings)
    requires RingsDealt(spacing, members, group, target, caps, gaps, turn, rings)
    ensures group[p] < |spacing|
    ensures spacing[group[p]].Some? && spacing[group[p]].value.target == target
      && spacing[group[p]].value.ring == RingAt(caps, p, 0)
  {
    hide *;
    OnRing(spacing, members, group, target, caps, gaps, turn, p, rings);
    var r := RingAt(caps, p, 0);
    DealtMember(spacing, members, RingOf(group, caps, r), target, r, gaps(r), turn, group[p]);
  }

  /** Whom of the group ring `r` holds. */
  function RingOf(group: seq<nat>, caps: nat -> nat, r: nat): (ring: seq<nat>)
    ensures |ring| <= caps(r)
  {
    if Places(caps, 0, r) <= |group| then Slice(group, Places(caps, 0, r), caps(r)) else []
  }

  lemma OnRing(spacing: seq<Option<Slot>>, members: seq<Chaser>, group: seq<nat>, target: nat, caps: nat -> nat,
               gaps: nat -> real, turn: real, p: nat, rings: nat)
    requires (forall r :: caps(r) >= 1) && p < |group| <= Places(caps, 0, rings)
    requires RingsDealt(spacing, members, group, target, caps, gaps, turn, rings)
    ensures var r := RingAt(caps, p, 0);
      group[p] in RingOf(group, caps, r) && Dealt(spacing, members, RingOf(group, caps, r), target, r, gaps(r), turn)
  {
    hide Dealt, RingAt, Places;
    var r := RingAt(caps, p, 0);
    RingHolds(caps, p, 0, r);
    if r > rings {
      PlacesGrow(caps, rings, r);
    }
    InSlice(group, Places(caps, 0, r), caps(r), p);
  }

  lemma InSlice(group: seq<nat>, from: nat, size: nat, p: nat)
    requires from <= p < from + size && p < |group|
    ensures group[p] in Slice(group, from, size)
  {
    assert Slice(group, from, size)[p - from] == group[p];
  }

  lemma DealtMember(spacing: seq<Option<Slot>>, members: seq<Chaser>, ring: seq<nat>, target: nat, number: nat,
                    gap: real, turn: real, k: nat)
    requires Dealt(spacing, members, ring, target, number, gap, turn) && k in ring
    ensures k < |spacing| && spacing[k].Some? && spacing[k].value.target == target && spacing[k].value.ring == number
  {
    hide AngleAt, MeanOf, Unwrapped, GapAfter, Ascending, StartsAfter;
    var order: seq<nat>, start: nat :|
      SameMembers(order, ring) && start < |order| && InRange(order, |members|)
      && DealtFrom(spacing, members, order, start, target, number, gap, turn);
    assert k in order;
    var i :| 0 <= i < |order| && order[i] == k;
    var j: nat := if i >= start then i - start else i + |order| - start;
    assert Seat(order, start, j) == k;
  }

  // ----- every target -----------------------------------------------------------------------------------

  /** Who is after this target, in list order. */
  function Chasing(members: seq<Chaser>, target: nat, n: nat): (g: seq<nat>)
    requires n <= |members|
    ensures forall k: nat :: k in g <==> k < n && members[k].target == target
    ensures forall i :: 0 <= i < |g| ==> g[i] < n
    ensures forall i, j :: 0 <= i < j < |g| ==> g[i] < g[j]
  {
    if n == 0 then []
    else Chasing(members, target, n - 1) + if members[n - 1].target == target then [n - 1] else []
  }

  function Ranked(members: seq<Chaser>, target: nat): seq<nat> {
    StableSort(ByRank(members), Chasing(members, target, |members|))
  }

  lemma RankedIs(members: seq<Chaser>, target: nat)
    ensures var g := Ranked(members, target);
      && Positions(g, |members|) && |g| == |Chasing(members, target, |members|)|
      && (forall k: nat :: k in g <==> k < |members| && members[k].target == target)
      && forall i, j :: 0 <= i < j < |g| ==>
           members[g[i]].rank < members[g[j]].rank
           || (members[g[i]].rank == members[g[j]].rank && members[g[i]].id <= members[g[j]].id)
  {
    hide StrictWeak, StableSort;
    var less, tie := ByRank(members), (i: nat, j: nat) => true;
    var found, g := Chasing(members, target, |members|), Ranked(members, target);
    RankOrder(members);
    SortOrders(less, tie, found);
    SameElements(found, g, |members|);
    forall i, j | 0 <= i < j < |g|
      ensures members[g[i]].rank < members[g[j]].rank
              || (members[g[i]].rank == members[g[j]].rank && members[g[i]].id <= members[g[j]].id)
    {
      assert Before(less, tie, g[i], g[j]);
    }
  }

  ghost predicate Served(spacing: seq<Option<Slot>>, members: seq<Chaser>, target: nat, caps: nat -> nat,
                         gaps: nat -> real, turn: real)
  {
    && |spacing| == |members|
    && if |Ranked(members, target)| >= 2
      then GroupDealt(spacing, members, Ranked(members, target), target, caps, gaps, turn)
      else forall k :: 0 <= k < |members| && members[k].target == target ==> spacing[k].None?
  }

  ghost predicate Wanted(members: seq<Chaser>, known: set<nat>, n: nat, target: nat)
    requires n <= |members|
  {
    target != 0 && target in known && exists i :: 0 <= i < n && members[i].target == target
  }

  /** The targets of the first `n` are served, and nobody after another target has a place. */
  ghost predicate Serving(spacing: seq<Option<Slot>>, members: seq<Chaser>, known: set<nat>, caps: nat -> nat,
                          gaps: nat -> real, turn: real, n: nat)
  {
    && |spacing| == |members| && n <= |members|
    && (forall t: nat :: Wanted(members, known, n, t) ==> Served(spacing, members, t, caps, gaps, turn))
    && (forall k: nat :: k < |members| && !Wanted(members, known, n, members[k].target) ==> spacing[k].None?)
  }

  lemma GroupElsewhere(before: seq<Option<Slot>>, after: seq<Option<Slot>>, members: seq<Chaser>, group: seq<nat>,
                       target: nat, caps: nat -> nat, gaps: nat -> real, turn: real)
    requires GroupDealt(before, members, group, target, caps, gaps, turn) && |after| == |before|
    requires forall k :: k in group && k < |before| ==> after[k] == before[k]
    ensures GroupDealt(after, members, group, target, caps, gaps, turn)
  {
    hide Dealt;
    var rings: nat :| Places(caps, 0, rings) >= |group|
      && RingsDealt(before, members, group, target, caps, gaps, turn, rings);
    forall r: nat | r < rings && Places(caps, 0, r) < |group|
      ensures Dealt(after, members, Slice(group, Places(caps, 0, r), caps(r)), target, r, gaps(r), turn)
    {
      var ring := Slice(group, Places(caps, 0, r), caps(r));
      assert forall k :: k in ring ==> k in group;
      DealtElsewhere(before, after, members, ring, target, r, gaps(r), turn);
    }
    assert RingsDealt(after, members, group, target, caps, gaps, turn, rings);
  }

  lemma ServedElsewhere(before: seq<Option<Slot>>, after: seq<Option<Slot>>, members: seq<Chaser>, t: nat, other: nat,
                        caps: nat -> nat, gaps: nat -> real, turn: real)
    requires Served(before, members, t, caps, gaps, turn) && t != other && |after| == |before|
    requires forall k :: 0 <= k < |before| && members[k].target != other ==> after[k] == before[k]
    ensures Served(after, members, t, caps, gaps, turn)
  {
    hide GroupDealt, Ranked;
    RankedIs(members, t);
    if |Ranked(members, t)| >= 2 {
      GroupElsewhere(before, after, members, Ranked(members, t), t, caps, gaps, turn);
    }
  }

  method SeenBefore(members: seq<Chaser>, first: nat, target: nat) returns (seen: bool)
    requires first <= |members|
    ensures seen <==> exists i :: 0 <= i < first && members[i].target == target
  {
    seen := false;
    for earlier := 0 to first
      invariant seen <==> exists i :: 0 <= i < earlier && members[i].target == target
    {
      seen := seen || members[earlier].target == target;
    }
  }

  /** Nothing to do for a target that is none, unknown or had by an earlier agent. */
  lemma StillServing(spacing: seq<Option<Slot>>, members: seq<Chaser>, known: set<nat>, caps: nat -> nat,
                     gaps: nat -> real, turn: real, first: nat)
    requires Serving(spacing, members, known, caps, gaps, turn, first) && first < |members|
    requires var target := members[first].target;
      target == 0 || target !in known || Wanted(members, known, first, target)
    ensures Serving(spacing, members, known, caps, gaps, turn, first + 1)
  {
    hide Served;
    forall t: nat ensures Wanted(members, known, first + 1, t) <==> Wanted(members, known, first, t) {
    }
    hide Wanted;
  }

  /** Serves the target of one member, unless it is of no account or has been served. */
  method ServeTarget(members: seq<Chaser>, known: set<nat>, first: nat, caps: nat -> nat, gaps: nat -> real, turn: real,
                     spacing: array<Option<Slot>>)
    requires first < |members| && (forall r :: caps(r) >= 1) && OneTurn(members, turn)
    requires Serving(spacing[..], members, known, caps, gaps, turn, first)
    modifies spacing
    ensures Serving(spacing[..], members, known, caps, gaps, turn, first + 1)
  {
    hide Serving, OneTurn;
    var target := members[first].target;
    if target == 0 || target !in known {
      StillServing(spacing[..], members, known, caps, gaps, turn, first);
      return;
    }
    var seenBefore := SeenBefore(members, first, target);
    if seenBefore {
      StillServing(spacing[..], members, known, caps, gaps, turn, first);
      return;
    }
    ServeGroup(members, known, first, target, caps, gaps, turn, spacing);
  }

  method ServeGroup(members: seq<Chaser>, known: set<nat>, first: nat, target: nat, caps: nat -> nat, gaps: nat -> real,
                    turn: real, spacing: array<Option<Slot>>)
    requires first < |members| && (forall r :: caps(r) >= 1) && OneTurn(members, turn)
    requires target == members[first].target && target != 0 && target in known && !Wanted(members, known, first, target)
    requires Serving(spacing[..], members, known, caps, gaps, turn, first)
    modifies spacing
    ensures Serving(spacing[..], members, known, caps, gaps, turn, first + 1)
  {
    ghost var before := spacing[..];
    assert |before| == |members|;
    hide Serving, Served, OneTurn, Wanted, GroupDealt, Ranked;
    var group := Ranked(members, target);
    RankedIs(members, target);
    if |group| >= 2 {
      PlaceGroup(members, group, target, caps, gaps, turn, spacing);
    }
    ServedNow(before, spacing[..], members, known, first, target, caps, gaps, turn);
  }

  lemma WantedNext(members: seq<Chaser>, known: set<nat>, n: nat, t: nat)
    requires n < |members|
    ensures Wanted(members, known, n + 1, t) <==>
      Wanted(members, known, n, t) || (t == members[n].target && t != 0 && t in known)
  {
  }

  lemma NewlyServed(before: seq<Option<Slot>>, after: seq<Option<Slot>>, members: seq<Chaser>, known: set<nat>,
                    first: nat, target: nat, caps: nat -> nat, gaps: nat -> real, turn: real)
    requires Serving(before, members, known, caps, gaps, turn, first) && |after| == |before|
    requires !Wanted(members, known, first, target)
    requires
      if |Ranked(members, target)| >= 2
      then GroupDealt(after, members, Ranked(members, target), target, caps, gaps, turn)
      else after == before
    ensures Served(after, members, target, caps, gaps, turn)
  {
    hide Ranked, GroupDealt, Wanted;
  }

  lemma OthersServed(before: seq<Option<Slot>>, after: seq<Option<Slot>>, members: seq<Chaser>, known: set<nat>,
                     first: nat, target: nat, caps: nat -> nat, gaps: nat -> real, turn: real)
    requires Serving(before, members, known, caps, gaps, turn, first) && first < |members| && |after| == |before|
    requires target == members[first].target && target != 0 && target in known && !Wanted(members, known, first, target)
    requires forall k :: 0 <= k < |before| && k !in Ranked(members, target) ==> after[k] == before[k]
    ensures forall t: nat :: Wanted(members, known, first, t) ==> Served(after, members, t, caps, gaps, turn)
  {
    RankedIs(members, target);
    hide Ranked, GroupDealt, Wanted, Served;
    forall t: nat | Wanted(members, known, first, t) ensures Served(after, members, t, caps, gaps, turn) {
      ServedElsewhere(before, after, members, t, target, caps, gaps, turn);
    }
  }

  lemma OthersPlaceless(before: seq<Option<Slot>>, after: seq<Option<Slot>>, members: seq<Chaser>, known: set<nat>,
                        first: nat, target: nat, caps: nat -> nat, gaps: nat -> real, turn: real)
    requires Serving(before, members, known, caps, gaps, turn, first) && first < |members| && |after| == |before|
    requires target == members[first].target && target != 0 && target in known && !Wanted(members, known, first, target)
    requires forall k :: 0 <= k < |before| && k !in Ranked(members, target) ==> after[k] == before[k]
    ensures forall k: nat ::
      k < |members| && members[k].target != target && !Wanted(members, known, first, members[k].target) ==>
      after[k].None?
  {
    RankedIs(members, target);
    hide Ranked, Wanted, Served;
  }

  lemma ServedNow(before: seq<Option<Slot>>, after: seq<Option<Slot>>, members: seq<Chaser>, known: set<nat>,
                  first: nat, target: nat, caps: nat -> nat, gaps: nat -> real, turn: real)
    requires Serving(before, members, known, caps, gaps, turn, first) && first < |members| && |after| == |before|
    requires target == members[first].target && target != 0 && target in known && !Wanted(members, known, first, target)
    requires forall k :: 0 <= k < |before| && k !in Ranked(members, target) ==> after[k] == before[k]
    requires
      if |Ranked(members, target)| >= 2
      then GroupDealt(after, members, Ranked(members, target), target, caps, gaps, turn)
      else after == before
    ensures Serving(after, members, known, caps, gaps, turn, first + 1)
  {
    hide Ranked, GroupDealt, Served;
    NewlyServed(before, after, members, known, first, target, caps, gaps, turn);
    OthersServed(before, after, members, known, first, target, caps, gaps, turn);
    OthersPlaceless(before, after, members, known, first, target, caps, gaps, turn);
    forall t: nat ensures Wanted(members, known, first + 1, t) <==> Wanted(members, known, first, t) || t == target {
      WantedNext(members, known, first, t);
    }
    hide Wanted;
  }

  /** Rings for every target, each ring as full as its spacing lets it be. */
  method PlanRings(members: seq<Chaser>, known: set<nat>, gaps: nat -> real, maxArc: real, turn: real)
    returns (spacing: array<Option<Slot>>)
    requires OneTurn(members, turn)
    ensures fresh(spacing) && Serving(spacing[..], members, known, CapsFor(gaps, maxArc), gaps, turn, |members|)
  {
    spacing := new Option<Slot>[|members|](_ => None);
    CapsPositive(gaps, maxArc);
    var caps := CapsFor(gaps, maxArc);
    hide Served, OneTurn, CapsFor;
    for first := 0 to |members|
      invariant fresh(spacing) && spacing.Length == |members|
      invariant Serving(spacing[..], members, known, caps, gaps, turn, first)
    {
      ServeTarget(members, known, first, caps, gaps, turn, spacing);
    }
  }

  /** The mean of a ring's bearings, in bearing order and unwrapped from some start. */
  ghost predicate IsMean(members: seq<Chaser>, ring: seq<nat>, turn: real, mean: real) {
    exists order: seq<nat>, start: nat :: MeanFrom(members, ring, order, start, turn, mean)
  }

  /** The start is the one after a widest gap. */
  ghost predicate MeanFrom(members: seq<Chaser>, ring: seq<nat>, order: seq<nat>, start: nat, turn: real, mean: real) {
    && SameMembers(order, ring) && start < |order| && InRange(order, |members|)
    && var b := Bearings(members, order);
      && Ascending(b) && (exists k: nat :: k < |b| && StartsAfter(b, k, start, turn))
      && mean == MeanOf(Unwrapped(b, start, turn))
  }

  /** On a ring within its capacity nobody's place is further than `maxArc` round from the
      mean of the ring's bearings. */
  lemma DealtInArc(spacing: seq<Option<Slot>>, members: seq<Chaser>, ring: seq<nat>, target: nat, number: nat,
                   gap: real, turn: real, maxArc: real, k: nat) returns (mean: real)
    requires Dealt(spacing, members, ring, target, number, gap, turn) && k in ring
    requires gap > 0.0 && maxArc >= 0.0 && |ring| <= Capacity(gap, maxArc)
    ensures k < |spacing| && spacing[k].Some? && IsMean(members, ring, turn, mean)
    ensures mean - maxArc <= spacing[k].value.angle <= mean + maxArc
  {
    hide AngleAt, MeanOf, Unwrapped, GapAfter, Ascending, StartsAfter, HalfSpread, Capacity;
    var order: seq<nat>, start: nat :|
      SameMembers(order, ring) && start < |order| && InRange(order, |members|)
      && DealtFrom(spacing, members, order, start, target, number, gap, turn);
    mean := MeanOf(Unwrapped(Bearings(members, order), start, turn));
    assert MeanFrom(members, ring, order, start, turn, mean);
    assert k in order;
    var i :| 0 <= i < |order| && order[i] == k;
    var j: nat := if i >= start then i - start else i + |order| - start;
    assert Seat(order, start, j) == k;
    SpreadWithinArc(|order|, gap, maxArc);
    AnglesSpread(mean, j, |order|, gap);
  }

  /** Places further on are whole gaps further on, and never further apart than twice the arc. */
  lemma AnglesApart(mean: real, k: nat, l: nat, count: nat, gap: real, maxArc: real)
    requires k < l < count && gap > 0.0 && HalfSpread(count, gap) <= maxArc
    ensures gap <= AngleAt(mean, l, count, gap) - AngleAt(mean, k, count, gap) <= 2.0 * maxArc
    decreases l - k
  {
    AnglesSpread(mean, k, count, gap);
    AnglesSpread(mean, l, count, gap);
    hide AngleAt, HalfSpread;
    if k + 1 < l {
      AnglesApart(mean, k + 1, l, count, gap, maxArc);
    }
  }

  /** Either way round the target, no two of a ring's places are nearer to each other than its
      gap, so long as the arc leaves that much of the turn free. */
  lemma PlacesApart(spacing: seq<Option<Slot>>, members: seq<Chaser>, ring: seq<nat>, target: nat, number: nat,
                    gap: real, turn: real, maxArc: real, i: nat, j: nat)
    requires Dealt(spacing, members, ring, target, number, gap, turn) && i in ring && j in ring && i != j
    requires gap > 0.0 && maxArc >= 0.0 && |ring| <= Capacity(gap, maxArc) && 2.0 * maxArc + gap <= turn
    ensures i < |spacing| && j < |spacing| && spacing[i].Some? && spacing[j].Some?
    ensures var d := spacing[i].value.angle - spacing[j].value.angle;
      gap <= (if d >= 0.0 then d else -d) <= turn - gap
  {
    hide AngleAt, MeanOf, Unwrapped, GapAfter, Ascending, StartsAfter, HalfSpread, Capacity;
    var order: seq<nat>, start: nat :|
      SameMembers(order, ring) && start < |order| && InRange(order, |members|)
      && DealtFrom(spacing, members, order, start, target, number, gap, turn);
    var mean := MeanOf(Unwrapped(Bearings(members, order), start, turn));
    SpreadWithinArc(|order|, gap, maxArc);
    var k, l := SeatOf(order, start, i), SeatOf(order, start, j);
    assert spacing[i] == Some(Slot(target, number, AngleAt(mean, k, |order|, gap)));
    assert spacing[j] == Some(Slot(target, number, AngleAt(mean, l, |order|, gap)));
    hide *;
    if k < l {
      AnglesApart(mean, k, l, |order|, gap, maxArc);
    } else {
      AnglesApart(mean, l, k, |order|, gap, maxArc);
    }
  }

  /** How far round from the start someone sits. */
  ghost function SeatOf(order: seq<nat>, start: nat, i: nat): (k: nat)
    requires i in order && start < |order|
    ensures k < |order| && Seat(order, start, k) == i
  {
    var n :| 0 <= n < |order| && order[n] == i;
    if n >= start then n - start else n + |order| - start
  }

  /** So whoever has a place can walk to it with the target in sight: it is within `maxArc`
      of the mean of its ring, the ring being those whose ranking puts them on it. */
  lemma PlacesWithinArc(spacing: seq<Option<Slot>>, members: seq<Chaser>, known: set<nat>, gaps: nat -> real,
                        maxArc: real, turn: real, p: nat, target: nat) returns (ring: seq<nat>, mean: real)
    requires (forall r :: gaps(r) > 0.0) && maxArc >= 0.0
    requires Serving(spacing, members, known, CapsFor(gaps, maxArc), gaps, turn, |members|)
    requires Wanted(members, known, |members|, target) && p < |Ranked(members, target)|
      && |Ranked(members, target)| >= 2
    ensures var i := Ranked(members, target)[p];
      && i in ring && i < |spacing| && spacing[i].Some?
        && (CapsPositive(gaps, maxArc); spacing[i].value.ring == RingAt(CapsFor(gaps, maxArc), p, 0))
      && ring == RingOf(Ranked(members, target), CapsFor(gaps, maxArc), spacing[i].value.ring)
      && IsMean(members, ring, turn, mean)
      && mean - maxArc <= spacing[i].value.angle <= mean + maxArc
  {
    var caps, group := CapsFor(gaps, maxArc), Ranked(members, target);
    assert Served(spacing, members, target, caps, gaps, turn);
    var rings: nat :| Places(caps, 0, rings) >= |group|
      && RingsDealt(spacing, members, group, target, caps, gaps, turn, rings);
    CapsPositive(gaps, maxArc);
    var r := RingAt(caps, p, 0);
    assert caps(r) == CapAt(gaps(r), maxArc) == Capacity(gaps(r), maxArc);
    hide *;
    PlacedIn(spacing, members, group, target, caps, gaps, turn, p, rings);
    OnRing(spacing, members, group, target, caps, gaps, turn, p, rings);
    ring := RingOf(group, caps, r);
    mean := DealtInArc(spacing, members, ring, target, r, gaps(r), turn, maxArc, group[p]);
  }

  /** The better rank, or at the same rank the lower id. */
  predicate Nearer(a: Chaser, b: Chaser) {
    a.rank < b.rank || (a.rank == b.rank && a.id < b.id)
  }

  /** Who has a place: whoever shares a known target with somebody, and nobody else; and of
      two after one target, the better ranked is never further out. */
  lemma PlacesAreFair(spacing: seq<Option<Slot>>, members: seq<Chaser>, known: set<nat>, caps: nat -> nat,
                      gaps: nat -> real, turn: real, i: nat, j: nat)
    requires (forall r :: caps(r) >= 1) && Serving(spacing, members, known, caps, gaps, turn, |members|)
    requires i < |members| && j < |members| && i != j && members[i].target == members[j].target
    ensures spacing[i].Some? <==> members[i].target != 0 && members[i].target in known
    ensures spacing[i].Some? && spacing[j].Some? && Nearer(members[i], members[j]) ==>
      spacing[i].value.ring <= spacing[j].value.ring && spacing[i].value.target == spacing[j].value.target
  {
    var t := members[i].target;
    if t != 0 && t in known {
      assert Wanted(members, known, |members|, t);
      RankedIs(members, t);
      var g := Ranked(members, t);
      hide Ranked, GroupDealt, RingAt;
      var p :| 0 <= p < |g| && g[p] == i;
      var q :| 0 <= q < |g| && g[q] == j;
      EveryonePlaced(spacing, members, g, t, caps, gaps, turn, p);
      EveryonePlaced(spacing, members, g, t, caps, gaps, turn, q);
      if Nearer(members[i], members[j]) {
        BetterRankInside(caps, p, q, 0);
      }
    } else {
      assert !Wanted(members, known, |members|, t);
    }
  }

  lemma AtMostOne(g: seq<nat>, count: nat, i: nat)
    requires Positions(g, count) && forall k: nat :: k in g ==> k == i
    ensures |g| <= 1
  {
    if |g| >= 2 {
      TwoAlike(g, i);
    }
  }

  lemma TwoAlike(g: seq<nat>, i: nat)
    requires |g| >= 2 && forall k: nat :: k in g ==> k == i
    ensures g[0] == g[1]
  {
    assert g[0] in g && g[1] in g;
  }

  /** One that is after its target alone keeps to itself. */
  lemma AloneHasNoPlace(spacing: seq<Option<Slot>>, members: seq<Chaser>, known: set<nat>, caps: nat -> nat,
                        gaps: nat -> real, turn: real, i: nat)
    requires Serving(spacing, members, known, caps, gaps, turn, |members|) && i < |members|
    requires forall j :: 0 <= j < |members| && j != i ==> members[j].target != members[i].target
    ensures spacing[i].None?
  {
    var t := members[i].target;
    RankedIs(members, t);
    var g := Ranked(members, t);
    hide Ranked, GroupDealt;
    if Wanted(members, known, |members|, t) {
      AtMostOne(g, |members|, i);
      assert Served(spacing, members, t, caps, gaps, turn);
    }
  }
}
