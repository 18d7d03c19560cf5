/** Which players are one target. The union-find of `group_players`, path halving and
    all, against single-linkage groups stated with no forest in sight. */
module PlayerGroups {
  import opened Geometry
  import opened Players
  import opened Sorting

  datatype Group = Group(members: seq<Player>, centroid: Vec3)

  // ----- what a grouping is ------------------------------------------------------------

  predicate Linked(radius: real, p: Player, q: Player) {
    Horizontal2(p.position, q.position) <= radius * radius
  }

  ghost predicate Chain(players: seq<Player>, radius: real, path: seq<Player>) {
    && |path| > 0
    && (forall p :: p in path ==> p in players)
    && forall i :: 0 <= i < |path| - 1 ==> Linked(radius, path[i], path[i + 1])
  }

  /** Joined by a chain of players, each within the radius of the next. */
  ghost predicate Connected(players: seq<Player>, radius: real, p: Player, q: Player) {
    exists path :: Chain(players, radius, path) && path[0] == p && path[|path| - 1] == q
  }

  function Pooled(groups: seq<seq<Player>>): multiset<Player> {
    if groups == [] then multiset{} else Pooled(groups[..|groups| - 1]) + multiset(groups[|groups| - 1])
  }

  function MembersOf(groups: seq<Group>): seq<seq<Player>> {
    seq(|groups|, i requires 0 <= i < |groups| => groups[i].members)
  }

  function SumOf(members: seq<Player>): Vec3 {
    if members == [] then Vec3(0.0, 0.0, 0.0)
    else
      var rest := SumOf(members[..|members| - 1]);
      var p := members[|members| - 1].position;
      Vec3(rest.x + p.x, rest.y + p.y, rest.z + p.z)
  }

  function Mean(members: seq<Player>): Vec3
    requires members != []
  {
    var sum, count := SumOf(members), |members| as real;
    Vec3(sum.x / count, sum.y / count, sum.z / count)
  }

  /** Larger first, ties by the lowest id. */
  predicate Precedes(g: seq<Player>, h: seq<Player>) {
    |g| > |h| || (|g| == |h| && (g == [] || g[0].id <= h[0].id))
  }

  predicate Ascending(members: seq<Player>) {
    forall i, j :: 0 <= i < j < |members| ==> members[i].id <= members[j].id
  }

  /** Two players share a group exactly when they are connected. */
  ghost predicate SeparatesComponents(players: seq<Player>, radius: real, groups: seq<seq<Player>>) {
    forall g, h, p, q :: 0 <= g < |groups| && 0 <= h < |groups| && p in groups[g] && q in groups[h] ==>
      (g == h <==> Connected(players, radius, p, q))
  }

  /** The single-linkage groups of `players`, in the order the caller may rely on. */
  ghost predicate IsGrouping(players: seq<Player>, radius: real, groups: seq<seq<Player>>) {
    && Pooled(groups) == multiset(players)
    && (forall g :: g in groups ==> g != [] && Ascending(g))
    && SeparatesComponents(players, radius, groups)
    && (forall g, h :: 0 <= g < h < |groups| ==> Precedes(groups[g], groups[h]))
  }

  // ----- connectedness is an equivalence -----------------------------------------------------

  lemma ConnectedSelf(players: seq<Player>, radius: real, p: Player)
    requires p in players
    ensures Connected(players, radius, p, p)
  {
    assert Chain(players, radius, [p]);
  }

  lemma ConnectedLink(players: seq<Player>, radius: real, p: Player, q: Player)
    requires p in players && q in players && Linked(radius, p, q)
    ensures Connected(players, radius, p, q)
  {
    var path := [p, q];
    assert Chain(players, radius, path) && path[0] == p && path[|path| - 1] == q;
  }

  lemma ConnectedTransitive(players: seq<Player>, radius: real, p: Player, q: Player, r: Player)
    requires Connected(players, radius, p, q) && Connected(players, radius, q, r)
    ensures Connected(players, radius, p, r)
  {
    var first :| Chain(players, radius, first) && first[0] == p && first[|first| - 1] == q;
    var second :| Chain(players, radius, second) && second[0] == q && second[|second| - 1] == r;
    var path := first + second[1..];
    assert path[|path| - 1] == r;
    forall i | 0 <= i < |path| - 1 ensures Linked(radius, path[i], path[i + 1]) {
      if i >= |first| - 1 {
        assert path[i] == second[i - (|first| - 1)] && path[i + 1] == second[i + 1 - (|first| - 1)];
      }
    }
    assert Chain(players, radius, path);
  }

  lemma ConnectedSymmetric(players: seq<Player>, radius: real, p: Player, q: Player)
    requires Connected(players, radius, p, q)
    ensures Connected(players, radius, q, p)
  {
    var path :| Chain(players, radius, path) && path[0] == p && path[|path| - 1] == q;
    var back := seq(|path|, i requires 0 <= i < |path| => path[|path| - 1 - i]);
    forall i | 0 <= i < |back| - 1 ensures Linked(radius, back[i], back[i + 1]) {
      var k := |path| - 2 - i;
      assert Linked(radius, path[k], path[k + 1]);
      LinkedSymmetric(radius, path[k], path[k + 1]);
    }
    assert Chain(players, radius, back);
  }

  lemma LinkedSymmetric(radius: real, p: Player, q: Player)
    ensures Linked(radius, p, q) <==> Linked(radius, q, p)
  {
    var a, b := p.position, q.position;
    assert (b.x - a.x) * (b.x - a.x) == (a.x - b.x) * (a.x - b.x);
    assert (b.z - a.z) * (b.z - a.z) == (a.z - b.z) * (a.z - b.z);
  }

  // ----- the forest -------------------------------------------------------------------------------

  /** Every parent is at or below its child, which is why following them ends. */
  ghost predicate Forest(parent: seq<nat>) {
    forall i :: 0 <= i < |parent| ==> parent[i] <= i
  }

  ghost function Root(parent: seq<nat>, i: nat): (r: nat)
    requires Forest(parent) && i < |parent|
    ensures r <= i && parent[r] == r
  {
    if parent[i] == i then i else Root(parent, parent[i])
  }

  lemma {:induction false} HalvingKeepsRoots(parent: seq<nat>, i: nat, k: nat)
    requires Forest(parent) && i < |parent| && k < |parent|
    ensures Forest(parent[i := parent[parent[i]]])
    ensures Root(parent[i := parent[parent[i]]], k) == Root(parent, k)
  {
    if parent[k] != k {
      HalvingKeepsRoots(parent, i, parent[k]);
      if k == i && parent[parent[k]] != k {
        HalvingKeepsRoots(parent, i, parent[parent[k]]);
      }
    }
  }

  lemma {:induction false} UnionMergesRoots(parent: seq<nat>, low: nat, high: nat, k: nat)
    requires Forest(parent) && low <= high < |parent| && k < |parent|
    requires parent[low] == low && parent[high] == high
    ensures Forest(parent[high := low])
    ensures Root(parent[high := low], k) == if Root(parent, k) == high then low else Root(parent, k)
  {
    if parent[k] != k {
      UnionMergesRoots(parent, low, high, parent[k]);
    }
  }

  method FindRoot(parent: array<nat>, start: nat) returns (root: nat)
    requires Forest(parent[..]) && start < parent.Length
    modifies parent
    ensures Forest(parent[..])
    ensures root == Root(old(parent[..]), start)
    ensures forall k :: 0 <= k < parent.Length ==> Root(parent[..], k) == Root(old(parent[..]), k)
  {
    var index: nat := start;
    while parent[index] != index
      invariant index < parent.Length && Forest(parent[..])
      invariant forall k :: 0 <= k < parent.Length ==> Root(parent[..], k) == Root(old(parent[..]), k)
      invariant Root(parent[..], index) == Root(old(parent[..]), start)
      decreases index
    {
      ghost var before := parent[..];
      parent[index] := parent[parent[index]];
      assert parent[..] == before[index := before[before[index]]];
      forall k | 0 <= k < parent.Length ensures Forest(parent[..]) && Root(parent[..], k) == Root(before, k) {
        HalvingKeepsRoots(before, index, k);
      }
      index := parent[index];
    }
    return index;
  }

  /** Within the roots found so far, everybody is connected; and every linked pair
      already looked at shares a root. */
  ghost predicate RootsConnect(players: seq<Player>, radius: real, parent: seq<nat>)
    requires Forest(parent) && |parent| == |players|
  {
    forall k :: 0 <= k < |players| ==> Connected(players, radius, players[k], players[Root(parent, k)])
  }

  ghost predicate PairsShareRoots(players: seq<Player>, radius: real, parent: seq<nat>, rows: nat, columns: nat)
    requires Forest(parent) && |parent| == |players|
  {
    forall i, j ::
      0 <= i < j < |players| && (i < rows || (i == rows && j < columns))
      && Linked(radius, players[i], players[j]) ==>
      Root(parent, i) == Root(parent, j)
  }

  method Unite(ghost players: seq<Player>, ghost radius: real, parent: array<nat>, i: nat, j: nat)
    requires Forest(parent[..]) && parent.Length == |players| && i < j < parent.Length
    requires RootsConnect(players, radius, parent[..]) && PairsShareRoots(players, radius, parent[..], i, j)
    requires Linked(radius, players[i], players[j])
    modifies parent
    ensures Forest(parent[..])
    ensures RootsConnect(players, radius, parent[..]) && PairsShareRoots(players, radius, parent[..], i, j + 1)
  {
    var left := FindRoot(parent, i);
    var right := FindRoot(parent, j);
    ghost var before := parent[..];
    var low: nat, high: nat := if left < right then left else right, if left < right then right else left;
    parent[high] := low;
    assert parent[..] == before[high := low];
    UnionFacts(players, radius, before, i, j, low, high);
  }

  lemma UnionFacts(players: seq<Player>, radius: real, parent: seq<nat>, i: nat, j: nat, low: nat, high: nat)
    requires Forest(parent) && |parent| == |players| && i < j < |players|
    requires RootsConnect(players, radius, parent) && PairsShareRoots(players, radius, parent, i, j)
    requires Linked(radius, players[i], players[j])
    requires low <= high
    requires (low == Root(parent, i) && high == Root(parent, j)) || (low == Root(parent, j) && high == Root(parent, i))
    ensures Forest(parent[high := low])
    ensures RootsConnect(players, radius, parent[high := low])
    ensures PairsShareRoots(players, radius, parent[high := low], i, j + 1)
  {
    hide Linked, Connected;
    UnionRoots(parent, i, j, low, high);
    hide Root, Forest;
    MergedConnected(players, radius, parent, i, j, low, high);
    var after := parent[high := low];
    forall k | 0 <= k < |players| ensures Connected(players, radius, players[k], players[Root(after, k)]) {
      if Root(parent, k) == high {
        ConnectedTransitive(players, radius, players[k], players[high], players[low]);
      }
    }
  }

  lemma MergedConnected(players: seq<Player>, radius: real, parent: seq<nat>, i: nat, j: nat, low: nat, high: nat)
    requires Forest(parent) && |parent| == |players| && i < j < |players| && RootsConnect(players, radius, parent)
    requires Linked(radius, players[i], players[j])
    requires (low == Root(parent, i) && high == Root(parent, j)) || (low == Root(parent, j) && high == Root(parent, i))
    ensures Connected(players, radius, players[high], players[low])
  {
    hide Linked, Connected, Root, Forest;
    ConnectedLink(players, radius, players[i], players[j]);
    ConnectedSymmetric(players, radius, players[i], players[j]);
    var a, b := if high == Root(parent, j) then j else i, if high == Root(parent, j) then i else j;
    assert Root(parent, a) == high && Root(parent, b) == low;
    ConnectedSymmetric(players, radius, players[a], players[high]);
    ConnectedTransitive(players, radius, players[high], players[a], players[b]);
    ConnectedTransitive(players, radius, players[high], players[b], players[low]);
  }

  /** Linking one root to the other moves the whole of its tree under it. */
  lemma UnionRoots(parent: seq<nat>, i: nat, j: nat, low: nat, high: nat)
    requires Forest(parent) && i < j < |parent| && low <= high
    requires (low == Root(parent, i) && high == Root(parent, j)) || (low == Root(parent, j) && high == Root(parent, i))
    ensures Forest(parent[high := low])
    ensures forall k :: 0 <= k < |parent| ==>
      Root(parent[high := low], k) == if Root(parent, k) == high then low else Root(parent, k)
  {
    forall k | 0 <= k < |parent|
      ensures Forest(parent[high := low])
      ensures Root(parent[high := low], k) == if Root(parent, k) == high then low else Root(parent, k)
    {
      UnionMergesRoots(parent, low, high, k);
    }
  }

  method BuildForest(players: seq<Player>, radius: real) returns (parent: array<nat>)
    ensures fresh(parent) && parent.Length == |players| && Forest(parent[..])
    ensures forall i, j :: 0 <= i < |players| && 0 <= j < |players| ==>
              (Root(parent[..], i) == Root(parent[..], j) <==> Connected(players, radius, players[i], players[j]))
  {
    parent := new nat[|players|](i => i);
    NothingUnited(players, radius, parent[..]);
    hide Linked, Forest, Root, RootsConnect, PairsShareRoots, Connected;
    for i := 0 to |players|
      invariant Forest(parent[..])
      invariant RootsConnect(players, radius, parent[..]) && PairsShareRoots(players, radius, parent[..], i, i + 1)
    {
      for j := i + 1 to |players|
        invariant Forest(parent[..])
        invariant RootsConnect(players, radius, parent[..]) && PairsShareRoots(players, radius, parent[..], i, j)
      {
        if Linked(radius, players[i], players[j]) {
          Unite(players, radius, parent, i, j);
        } else {
          PairUnlinked(players, radius, parent[..], i, j);
        }
      }
      RowDone(players, radius, parent[..], i);
    }
    AllPairsDone(players, radius, parent[..]);
    forall i, j | 0 <= i < |players| && 0 <= j < |players|
      ensures Root(parent[..], i) == Root(parent[..], j) <==> Connected(players, radius, players[i], players[j])
    {
      RootsAreComponents(players, radius, parent[..], i, j);
    }
  }

  lemma NothingUnited(players: seq<Player>, radius: real, parent: seq<nat>)
    requires |parent| == |players| && forall k :: 0 <= k < |parent| ==> parent[k] == k
    ensures Forest(parent) && RootsConnect(players, radius, parent) && PairsShareRoots(players, radius, parent, 0, 1)
  {
    forall k | 0 <= k < |players| ensures Connected(players, radius, players[k], players[Root(parent, k)]) {
      ConnectedSelf(players, radius, players[k]);
    }
  }

  lemma PairUnlinked(players: seq<Player>, radius: real, parent: seq<nat>, i: nat, j: nat)
    requires Forest(parent) && |parent| == |players| && i < j < |players| && !Linked(radius, players[i], players[j])
    requires PairsShareRoots(players, radius, parent, i, j)
    ensures PairsShareRoots(players, radius, parent, i, j + 1)
  {
    hide Linked, Root, Forest;
  }

  lemma RowDone(players: seq<Player>, radius: real, parent: seq<nat>, i: nat)
    requires Forest(parent) && |parent| == |players| && i < |players|
    requires PairsShareRoots(players, radius, parent, i, |players|)
    ensures PairsShareRoots(players, radius, parent, i + 1, i + 2)
  {
    hide Linked, Root, Forest;
  }

  lemma AllPairsDone(players: seq<Player>, radius: real, parent: seq<nat>)
    requires Forest(parent) && |parent| == |players|
      && PairsShareRoots(players, radius, parent, |players|, |players| + 1)
    ensures PairsShareRoots(players, radius, parent, |players|, 0)
  {
    hide Linked, Root, Forest;
  }

  lemma RootsAreComponents(players: seq<Player>, radius: real, parent: seq<nat>, i: nat, j: nat)
    requires Forest(parent) && |parent| == |players| && i < |players| && j < |players|
    requires RootsConnect(players, radius, parent) && PairsShareRoots(players, radius, parent, |players|, 0)
    ensures Root(parent, i) == Root(parent, j) <==> Connected(players, radius, players[i], players[j])
  {
    if Root(parent, i) == Root(parent, j) {
      var r := Root(parent, i);
      ConnectedSymmetric(players, radius, players[j], players[r]);
      ConnectedTransitive(players, radius, players[i], players[r], players[j]);
    }
    if Connected(players, radius, players[i], players[j]) {
      var path :| Chain(players, radius, path) && path[0] == players[i] && path[|path| - 1] == players[j];
      ChainSharesRoot(players, radius, parent, path, i, j);
    }
  }

  lemma {:induction false} ChainSharesRoot(players: seq<Player>, radius: real, parent: seq<nat>, path: seq<Player>,
                                           i: nat, j: nat)
    requires Forest(parent) && |parent| == |players| && i < |players| && j < |players|
    requires PairsShareRoots(players, radius, parent, |players|, 0)
    requires Chain(players, radius, path) && path[0] == players[i] && path[|path| - 1] == players[j]
    ensures Root(parent, i) == Root(parent, j)
    decreases |path|
  {
    if |path| == 1 {
      assert Horizontal2(players[i].position, players[i].position) == 0.0;
      assert Linked(radius, players[i], players[j]) && Linked(radius, players[j], players[i]);
    } else {
      assert path[1] in players;
      var k :| 0 <= k < |players| && players[k] == path[1];
      assert Linked(radius, path[0], path[1]);
      LinkedSymmetric(radius, path[0], path[1]);
      ChainSharesRoot(players, radius, parent, path[1..], k, j);
      if i == k { }
    }
  }

  // ----- collecting the groups ------------------------------------------------------------

  /** `group` lists the players at the indices `at`, all below `n` and all under the
      root that comes first among them. */
  ghost predicate GroupAt(players: seq<Player>, roots: seq<nat>, n: nat, group: seq<Player>, at: seq<nat>)
    requires |roots| == |players|
  {
    && |group| == |at| && at != []
    && (forall k :: 0 <= k < |at| ==>
      at[k] < n && at[k] < |players| && roots[at[k]] == at[0] && players[at[k]] == group[k])
    && (forall k, l :: 0 <= k < l < |at| ==> at[k] < at[l])
  }

  /** The groups of the first `n` players; `index` says which group each root opened. */
  ghost predicate Collected(players: seq<Player>, roots: seq<nat>, n: nat,
                            groups: seq<seq<Player>>, index: map<nat, nat>, at: seq<seq<nat>>)
    requires |roots| == |players|
  {
    && n <= |players| && |at| == |groups|
    && (forall g :: 0 <= g < |groups| ==> GroupAt(players, roots, n, groups[g], at[g]))
    && (forall g, h :: 0 <= g < h < |groups| ==> at[g][0] < at[h][0])
    && (forall r :: r in index ==> index[r] < |groups| && at[index[r]][0] == r)
    && (forall g :: 0 <= g < |groups| ==> at[g][0] in index && index[at[g][0]] == g)
    && (forall i :: 0 <= i < n ==> roots[i] in index)
  }

  lemma CollectJoin(players: seq<Player>, roots: seq<nat>, n: nat, groups: seq<seq<Player>>, index: map<nat, nat>,
                    at: seq<seq<nat>>)
    requires |roots| == |players| && n < |players| && Collected(players, roots, n, groups, index, at)
    requires roots[n] in index
    ensures var g := index[roots[n]];
      Collected(players, roots, n + 1, groups[g := groups[g] + [players[n]]], index, at[g := at[g] + [n]])
  {
    var g := index[roots[n]];
    var joined, spots := groups[g := groups[g] + [players[n]]], at[g := at[g] + [n]];
    forall h | 0 <= h < |joined|
      ensures GroupAt(players, roots, n + 1, joined[h], spots[h]) && spots[h][0] == at[h][0]
    {
      assert GroupAt(players, roots, n, groups[h], at[h]);
    }
  }

  lemma CollectOpen(players: seq<Player>, roots: seq<nat>, n: nat, groups: seq<seq<Player>>, index: map<nat, nat>,
                    at: seq<seq<nat>>)
    requires |roots| == |players| && n < |players| && Collected(players, roots, n, groups, index, at)
    requires roots[n] == n && n !in index
    ensures Collected(players, roots, n + 1, groups + [[players[n]]], index[n := |groups|], at + [[n]])
  {
    var opening, spots := groups + [[players[n]]], at + [[n]];
    forall h | 0 <= h < |opening|
      ensures GroupAt(players, roots, n + 1, opening[h], spots[h])
      ensures h < |groups| ==> spots[h][0] == at[h][0] < n
    {
      if h < |groups| { assert GroupAt(players, roots, n, groups[h], at[h]); }
    }
  }

  lemma {:induction false} PooledUpdate(groups: seq<seq<Player>>, g: nat, group: seq<Player>, extra: Player)
    requires g < |groups| && group == groups[g] + [extra]
    ensures Pooled(groups[g := group]) == Pooled(groups) + multiset{extra}
  {
    var last := |groups| - 1;
    if g == last {
      assert groups[g := group][..last] == groups[..last];
    } else {
      assert groups[g := group][..last] == groups[..last][g := group];
      PooledUpdate(groups[..last], g, group, extra);
    }
  }

  /** The player joins its root's group, opened here if it is the first. */
  method Admit(groups: seq<seq<Player>>, index: map<nat, nat>, root: nat, player: Player)
    returns (grown: seq<seq<Player>>, known: map<nat, nat>)
    requires forall r :: r in index ==> index[r] < |groups|
    ensures root in index ==> known == index && grown == groups[index[root] := groups[index[root]] + [player]]
    ensures root !in index ==> known == index[root := |groups|] && grown == groups + [[player]]
    ensures Pooled(grown) == Pooled(groups) + multiset{player}
  {
    grown, known := groups, index;
    if root !in known {
      known := known[root := |grown|];
      grown := grown + [[]];
      assert grown[..|grown| - 1] == groups;
    }
    var g := known[root];
    PooledUpdate(grown, g, grown[g] + [player], player);
    assert root !in index ==> grown[g] + [player] == [player];
    grown := grown[g := grown[g] + [player]];
  }

  ghost predicate RootsAre(parent: seq<nat>, roots: seq<nat>) {
    && Forest(parent) && |roots| == |parent|
    && forall k :: 0 <= k < |parent| ==> roots[k] == Root(parent, k)
  }

  ghost function RootsOf(parent: seq<nat>): (roots: seq<nat>)
    requires Forest(parent)
    ensures RootsAre(parent, roots)
  {
    seq(|parent|, k requires 0 <= k < |parent| => Root(parent, k))
  }

  method CollectNext(players: seq<Player>, parent: array<nat>, i: nat, groups: seq<seq<Player>>, index: map<nat, nat>,
                     ghost roots: seq<nat>, ghost at: seq<seq<nat>>)
    returns (grown: seq<seq<Player>>, known: map<nat, nat>, ghost spots: seq<seq<nat>>)
    requires parent.Length == |players| && i < |players| && RootsAre(parent[..], roots)
    requires Collected(players, roots, i, groups, index, at) && Pooled(groups) == multiset(players[..i])
    modifies parent
    ensures RootsAre(parent[..], roots)
    ensures Collected(players, roots, i + 1, grown, known, spots) && Pooled(grown) == multiset(players[..i + 1])
  {
    hide Collected, Pooled;
    CollectedIndex(players, roots, parent[..], i, groups, index, at);
    var root := FindRoot(parent, i);
    if root in index {
      CollectJoin(players, roots, i, groups, index, at);
      spots := at[index[root] := at[index[root]] + [i]];
    } else {
      CollectOpen(players, roots, i, groups, index, at);
      spots := at + [[i]];
    }
    grown, known := Admit(groups, index, root, players[i]);
    assert players[..i + 1] == players[..i] + [players[i]];
  }

  /** The walk over the sorted players, opening a group at each new root. */
  method CollectGroups(players: seq<Player>, parent: array<nat>)
    returns (groups: seq<seq<Player>>, ghost at: seq<seq<nat>>, ghost roots: seq<nat>, ghost groupOf: map<nat, nat>)
    requires Forest(parent[..]) && parent.Length == |players|
    modifies parent
    ensures RootsAre(old(parent[..]), roots) && |roots| == |players|
    ensures Collected(players, roots, |players|, groups, groupOf, at)
    ensures Pooled(groups) == multiset(players)
  {
    groups, at := [], [];
    roots := RootsOf(parent[..]);
    var index: map<nat, nat> := map[];
    NothingCollected(players, roots);
    hide Collected, Pooled, RootsAre;
    for i := 0 to |players|
      invariant RootsAre(parent[..], roots)
      invariant Collected(players, roots, i, groups, index, at)
      invariant Pooled(groups) == multiset(players[..i])
    {
      groups, index, at := CollectNext(players, parent, i, groups, index, roots, at);
    }
    assert players[..|players|] == players;
    groupOf := index;
  }

  lemma NothingCollected(players: seq<Player>, roots: seq<nat>)
    requires |roots| == |players|
    ensures Pooled([]) == multiset(players[..0]) && Collected(players, roots, 0, [], map[], [])
  {
  }

  /** A root seen for the first time is the player itself: roots are the lowest of
      their group, and the walk is in order. */
  lemma CollectedIndex(players: seq<Player>, roots: seq<nat>, parent: seq<nat>, n: nat,
                       groups: seq<seq<Player>>, index: map<nat, nat>, at: seq<seq<nat>>)
    requires |roots| == |players| && n < |players| && Collected(players, roots, n, groups, index, at)
    requires RootsAre(parent, roots)
    ensures forall r :: r in index ==> index[r] < |groups| && index[r] < |at|
    ensures roots[n] !in index ==> roots[n] == n
  {
    hide GroupAt;
    assert Root(parent, Root(parent, n)) == Root(parent, n);
    assert roots[n] < n ==> roots[roots[n]] in index;
  }

  // ----- the whole of group_players -------------------------------------------------------------

  predicate LowerId(p: Player, q: Player) {
    p.id < q.id
  }

  predicate MoreMembers(g: seq<Player>, h: seq<Player>) {
    |g| > |h|
  }

  ghost predicate OpenedBefore(g: seq<Player>, h: seq<Player>) {
    g != h && (g == [] || h == [] || g[0].id <= h[0].id)
  }

  lemma SortedById(players: seq<Player>)
    ensures Ascending(StableSort(LowerId, players))
  {
    SortOrders(LowerId, (p, q) => true, players);
    var sorted := StableSort(LowerId, players);
    forall i, j | 0 <= i < j < |sorted| ensures sorted[i].id <= sorted[j].id {
      assert Before(LowerId, (p, q) => true, sorted[i], sorted[j]);
    }
  }

  /** What the walk collected is a grouping, but for its order. */
  lemma CollectedIsGrouping(players: seq<Player>, radius: real, roots: seq<nat>, groups: seq<seq<Player>>,
                            index: map<nat, nat>, at: seq<seq<nat>>)
    requires |roots| == |players| && Ascending(players)
    requires Collected(players, roots, |players|, groups, index, at)
    requires forall i, j :: 0 <= i < |players| && 0 <= j < |players| ==>
               (roots[i] == roots[j] <==> Connected(players, radius, players[i], players[j]))
    ensures SeparatesComponents(players, radius, groups)
    ensures forall g :: g in groups ==> g != [] && Ascending(g)
    ensures forall g, h :: 0 <= g < h < |groups| ==> OpenedBefore(groups[g], groups[h])
  {
    hide Connected;
    forall g, h, p, q | 0 <= g < |groups| && 0 <= h < |groups| && p in groups[g] && q in groups[h]
      ensures g == h <==> Connected(players, radius, p, q)
    {
      assert GroupAt(players, roots, |players|, groups[g], at[g])
        && GroupAt(players, roots, |players|, groups[h], at[h]);
      var k :| 0 <= k < |groups[g]| && groups[g][k] == p;
      var l :| 0 <= l < |groups[h]| && groups[h][l] == q;
      assert roots[at[g][k]] == at[g][0] && roots[at[h][l]] == at[h][0];
      assert players[at[g][k]] == p && players[at[h][l]] == q;
    }
    forall group | group in groups ensures group != [] && Ascending(group) {
      var g :| 0 <= g < |groups| && groups[g] == group;
      assert GroupAt(players, roots, |players|, groups[g], at[g]);
    }
    forall g, h | 0 <= g < h < |groups| ensures OpenedBefore(groups[g], groups[h]) {
      assert GroupAt(players, roots, |players|, groups[g], at[g])
        && GroupAt(players, roots, |players|, groups[h], at[h]);
      var i, j := at[g][0], at[h][0];
      assert roots[i] == i && roots[j] == j && i < j;
      ConnectedSelf(players, radius, players[i]);
      assert groups[g][0] == players[i] && groups[h][0] == players[j];
    }
  }

  lemma {:induction false} PooledInsert(s: seq<seq<Player>>, x: seq<Player>)
    ensures Pooled(Insert(MoreMembers, s, x)) == Pooled(s) + multiset(x)
  {
    if s != [] {
      var last := |s| - 1;
      if MoreMembers(x, s[last]) {
        PooledInsert(s[..last], x);
        assert (Insert(MoreMembers, s[..last], x) + [s[last]])[..|Insert(MoreMembers, s[..last], x)|]
          == Insert(MoreMembers, s[..last], x);
      } else {
        assert (s + [x])[..|s|] == s;
      }
    }
  }

  lemma {:induction false} PooledSort(s: seq<seq<Player>>)
    ensures Pooled(StableSort(MoreMembers, s)) == Pooled(s)
  {
    if s != [] {
      PooledSort(s[..|s| - 1]);
      PooledInsert(StableSort(MoreMembers, s[..|s| - 1]), s[|s| - 1]);
    }
  }

  /** The stable sort by size puts them in the promised order and disturbs nothing. */
  lemma SortedIsGrouping(players: seq<Player>, radius: real, groups: seq<seq<Player>>)
    requires Pooled(groups) == multiset(players) && SeparatesComponents(players, radius, groups)
    requires forall g :: g in groups ==> g != [] && Ascending(g)
    requires forall g, h :: 0 <= g < h < |groups| ==> OpenedBefore(groups[g], groups[h])
    ensures IsGrouping(players, radius, StableSort(MoreMembers, groups))
  {
    var sorted := StableSort(MoreMembers, groups);
    hide *;
    assert InOrder(groups, sorted) by { SortedKeeps(groups); }
    SortedSeparates(players, radius, groups, sorted);
    OrderedIsGrouping(players, radius, groups, sorted);
  }

  /** The same groups, each once, in the promised order. */
  ghost predicate InOrder(groups: seq<seq<Player>>, sorted: seq<seq<Player>>) {
    && Pooled(sorted) == Pooled(groups)
    && (forall g :: g in sorted ==> g in groups)
    && (forall g, h :: 0 <= g < h < |sorted| ==> sorted[g] != sorted[h] && Precedes(sorted[g], sorted[h]))
  }

  lemma OrderedIsGrouping(players: seq<Player>, radius: real, groups: seq<seq<Player>>, sorted: seq<seq<Player>>)
    requires Pooled(groups) == multiset(players) && InOrder(groups, sorted)
    requires forall g :: g in groups ==> g != [] && Ascending(g)
    requires SeparatesComponents(players, radius, sorted)
    ensures IsGrouping(players, radius, sorted)
  {
    hide Pooled, Precedes, Ascending, SeparatesComponents;
  }

  lemma SortedSeparates(players: seq<Player>, radius: real, groups: seq<seq<Player>>, sorted: seq<seq<Player>>)
    requires SeparatesComponents(players, radius, groups)
    requires forall g, h :: 0 <= g < h < |groups| ==> OpenedBefore(groups[g], groups[h])
    requires InOrder(groups, sorted)
    ensures SeparatesComponents(players, radius, sorted)
  {
    hide Connected, OpenedBefore;
    forall g, h, p, q | 0 <= g < |sorted| && 0 <= h < |sorted| && p in sorted[g] && q in sorted[h]
      ensures g == h <==> Connected(players, radius, p, q)
    {
      SeparatedByValue(players, radius, groups, sorted[g], sorted[h], p, q);
    }
  }

  lemma SizeIsStrictWeak()
    ensures StrictWeak(MoreMembers)
  {
  }

  lemma SortedKeeps(groups: seq<seq<Player>>)
    requires forall g, h :: 0 <= g < h < |groups| ==> OpenedBefore(groups[g], groups[h])
    ensures InOrder(groups, StableSort(MoreMembers, groups))
  {
    var sorted := StableSort(MoreMembers, groups);
    PooledSort(groups);
    SizeIsStrictWeak();
    hide StrictWeak, StableSort, Pooled;
    SortOrders(MoreMembers, OpenedBefore, groups);
    forall g | g in sorted ensures g in groups {
      assert g in multiset(sorted);
    }
    forall g, h | 0 <= g < h < |sorted| ensures sorted[g] != sorted[h] && Precedes(sorted[g], sorted[h]) {
      assert Before(MoreMembers, OpenedBefore, sorted[g], sorted[h]);
    }
  }

  lemma SeparatedByValue(players: seq<Player>, radius: real, groups: seq<seq<Player>>, g: seq<Player>, h: seq<Player>,
                         p: Player, q: Player)
    requires SeparatesComponents(players, radius, groups) && g in groups && h in groups && p in g && q in h
    requires forall i, j :: 0 <= i < j < |groups| ==> OpenedBefore(groups[i], groups[j])
    ensures g == h <==> Connected(players, radius, p, q)
  {
    hide Connected;
    var k :| 0 <= k < |groups| && groups[k] == g;
    var l :| 0 <= l < |groups| && groups[l] == h;
    if k < l { assert OpenedBefore(groups[k], groups[l]); }
    if l < k { assert OpenedBefore(groups[l], groups[k]); }
  }

  lemma SamePlayersSameGrouping(players: seq<Player>, others: seq<Player>, radius: real, groups: seq<seq<Player>>)
    requires multiset(players) == multiset(others) && IsGrouping(players, radius, groups)
    ensures IsGrouping(others, radius, groups)
  {
    forall p, q ensures Connected(players, radius, p, q) <==> Connected(others, radius, p, q) {
      if Connected(players, radius, p, q) { SamePlayersSameChains(players, others, radius, p, q); }
      if Connected(others, radius, p, q) { SamePlayersSameChains(others, players, radius, p, q); }
    }
  }

  lemma SamePlayersSameChains(players: seq<Player>, others: seq<Player>, radius: real, p: Player, q: Player)
    requires multiset(players) == multiset(others) && Connected(players, radius, p, q)
    ensures Connected(others, radius, p, q)
  {
    var path :| Chain(players, radius, path) && path[0] == p && path[|path| - 1] == q;
    forall x | x in path ensures x in others {
      assert x in multiset(players);
    }
    assert Chain(others, radius, path);
  }

  method GroupPlayers(players: seq<Player>, radius: real) returns (groups: seq<Group>)
    ensures IsGrouping(players, radius, MembersOf(groups))
    ensures forall g :: g in groups ==> g.members != [] && g.centroid == Mean(g.members)
  {
    var sorted := StableSort(LowerId, players);
    SortedById(players);
    var members := ComponentsOf(sorted, radius);
    var ordered := StableSort(MoreMembers, members);
    SortedIsGrouping(sorted, radius, members);
    SamePlayersSameGrouping(sorted, players, radius, ordered);
    groups := WithCentroids(ordered);
  }

  method ComponentsOf(players: seq<Player>, radius: real) returns (groups: seq<seq<Player>>)
    requires Ascending(players)
    ensures Pooled(groups) == multiset(players) && SeparatesComponents(players, radius, groups)
    ensures forall g :: g in groups ==> g != [] && Ascending(g)
    ensures forall g, h :: 0 <= g < h < |groups| ==> OpenedBefore(groups[g], groups[h])
  {
    hide Connected, Ascending, Pooled, Collected, OpenedBefore;
    var parent := BuildForest(players, radius);
    ghost var at, roots, index;
    groups, at, roots, index := CollectGroups(players, parent);
    CollectedIsGrouping(players, radius, roots, groups, index, at);
  }

  method WithCentroids(members: seq<seq<Player>>) returns (groups: seq<Group>)
    requires forall g :: g in members ==> g != []
    ensures MembersOf(groups) == members
    ensures forall g :: g in groups ==> g.members != [] && g.centroid == Mean(g.members)
  {
    hide Mean;
    groups := [];
    for i := 0 to |members|
      invariant MembersOf(groups) == members[..i]
      invariant forall g :: g in groups ==> g.members != [] && g.centroid == Mean(g.members)
    {
      assert members[i] in members;
      groups := groups + [Group(members[i], Mean(members[i]))];
    }
    assert members[..|members|] == members;
  }

  // ----- one answer for the same players -----------------------------------------------------------

  predicate DistinctIds(players: seq<Player>) {
    forall i, j :: 0 <= i < j < |players| ==> players[i].id != players[j].id
  }

  lemma {:induction false} PooledMembers(groups: seq<seq<Player>>, p: Player)
    ensures p in Pooled(groups) <==> exists g :: 0 <= g < |groups| && p in groups[g]
  {
    if groups != [] {
      var last := |groups| - 1;
      PooledMembers(groups[..last], p);
      if g :| 0 <= g < |groups| && p in groups[g] {
        if g < last { assert groups[..last][g] == groups[g]; }
      }
      if p in Pooled(groups[..last]) {
        var g :| 0 <= g < last && p in groups[..last][g];
        assert p in groups[g];
      }
    }
  }

  lemma {:induction false} PooledCounts(groups: seq<seq<Player>>, g: nat)
    requires g < |groups|
    ensures multiset(groups[g]) <= Pooled(groups)
  {
    if g < |groups| - 1 {
      PooledCounts(groups[..|groups| - 1], g);
    }
  }

  /** Two sequences in one strict order with the same elements are the same. */
  lemma {:induction false} StrictOrderIsUnique<T(!new)>(before: (T, T) -> bool, s: seq<T>, t: seq<T>)
    requires forall a, b :: before(a, b) ==> !before(b, a)
    requires forall i, j :: 0 <= i < j < |s| ==> before(s[i], s[j])
    requires forall i, j :: 0 <= i < j < |t| ==> before(t[i], t[j])
    requires forall x :: x in s <==> x in t
    ensures s == t
  {
    if s == [] {
      assert forall i :: 0 <= i < |t| ==> t[i] in t;
    } else {
      assert s[0] in s && s[0] in t;
      var k :| 0 <= k < |t| && t[k] == s[0];
      assert t[0] in t && t[0] in s;
      var l :| 0 <= l < |s| && s[l] == t[0];
      assert s[0] == t[0];
      forall x ensures x in s[1..] <==> x in t[1..] {
        if x in s[1..] {
          var i :| 1 <= i < |s| && s[i] == x;
          assert x in s && x in t;
          var j :| 0 <= j < |t| && t[j] == x;
          assert j != 0;
        }
        if x in t[1..] {
          var i :| 1 <= i < |t| && t[i] == x;
          assert x in t && x in s;
          var j :| 0 <= j < |s| && s[j] == x;
          assert j != 0;
        }
      }
      StrictOrderIsUnique(before, s[1..], t[1..]);
      assert s == [s[0]] + s[1..] && t == [t[0]] + t[1..];
    }
  }

  lemma GroupMembersDistinct(players: seq<Player>, radius: real, groups: seq<seq<Player>>, g: nat)
    requires DistinctIds(players) && IsGrouping(players, radius, groups) && g < |groups|
    ensures forall i, j :: 0 <= i < j < |groups[g]| ==> LowerId(groups[g][i], groups[g][j])
  {
    forall i, j | 0 <= i < j < |groups[g]| ensures LowerId(groups[g][i], groups[g][j]) {
      var p, q := groups[g][i], groups[g][j];
      assert groups[g] in groups && p.id <= q.id;
      if p.id == q.id {
        TwiceInPlayers(players, groups, g, i, j);
      }
    }
  }

  lemma TwiceInPlayers(players: seq<Player>, groups: seq<seq<Player>>, g: nat, i: nat, j: nat)
    requires DistinctIds(players) && Pooled(groups) == multiset(players) && g < |groups| && i < j < |groups[g]|
    ensures groups[g][i].id != groups[g][j].id
  {
    var p, q := groups[g][i], groups[g][j];
    PooledCounts(groups, g);
    assert p in multiset(groups[g]) && q in multiset(groups[g]);
    assert p in players && q in players;
    if p == q {
      CountsTwice(groups[g], i, j);
      DistinctCountsOnce(players, p);
    } else {
      var k :| 0 <= k < |players| && players[k] == p;
      var l :| 0 <= l < |players| && players[l] == q;
    }
  }

  lemma CountsTwice(s: seq<Player>, i: nat, j: nat)
    requires i < j < |s| && s[i] == s[j]
    ensures multiset(s)[s[i]] >= 2
  {
    assert s == s[..i] + [s[i]] + s[i + 1..j] + [s[j]] + s[j + 1..];
  }

  lemma {:induction false} DistinctCountsOnce(players: seq<Player>, p: Player)
    requires DistinctIds(players)
    ensures multiset(players)[p] <= 1
  {
    if players != [] {
      var last := |players| - 1;
      assert players == players[..last] + [players[last]];
      DistinctCountsOnce(players[..last], p);
      assert players[last] == p ==> forall k :: 0 <= k < last ==> players[..last][k] != p;
    }
  }

  lemma SameGroup(players: seq<Player>, radius: real, one: seq<seq<Player>>, two: seq<seq<Player>>, g: nat)
      returns (h: nat)
    requires DistinctIds(players) && IsGrouping(players, radius, one) && IsGrouping(players, radius, two) && g < |one|
    ensures h < |two| && two[h] == one[g]
  {
    hide Connected, Precedes, Ascending;
    assert one[g] in one;
    var p := one[g][0];
    PooledMembers(one, p);
    PooledMembers(two, p);
    h :| 0 <= h < |two| && p in two[h];
    forall q ensures q in one[g] <==> q in two[h] {
      PooledMembers(one, q);
      PooledMembers(two, q);
      if q in one[g] {
        assert Connected(players, radius, p, q);
        var k :| 0 <= k < |two| && q in two[k];
      }
      if q in two[h] {
        assert Connected(players, radius, p, q);
        var k :| 0 <= k < |one| && q in one[k];
      }
    }
    GroupMembersDistinct(players, radius, one, g);
    GroupMembersDistinct(players, radius, two, h);
    StrictOrderIsUnique(LowerId, one[g], two[h]);
  }

  ghost predicate StrictlyPrecedes(g: seq<Player>, h: seq<Player>) {
    Precedes(g, h) && !Precedes(h, g)
  }

  lemma GroupsStrictlyOrdered(players: seq<Player>, radius: real, groups: seq<seq<Player>>)
    requires DistinctIds(players) && IsGrouping(players, radius, groups)
    ensures forall g, h :: 0 <= g < h < |groups| ==> StrictlyPrecedes(groups[g], groups[h])
  {
    forall g, h | 0 <= g < h < |groups| ensures StrictlyPrecedes(groups[g], groups[h]) {
      assert groups[g] in groups && groups[h] in groups;
      var p, q := groups[g][0], groups[h][0];
      PooledMembers(groups, p);
      PooledMembers(groups, q);
      assert p in players && q in players;
      if p == q {
        ConnectedSelf(players, radius, p);
      }
      var k :| 0 <= k < |players| && players[k] == p;
      var l :| 0 <= l < |players| && players[l] == q;
      assert p.id != q.id;
    }
  }

  /** With the distinct net ids the kernel hands out, the same players in any order
      have exactly one grouping: the answer does not depend on the order they came in. */
  lemma GroupingIsUnique(players: seq<Player>, shuffled: seq<Player>, radius: real, one: seq<seq<Player>>,
                         two: seq<seq<Player>>)
    requires DistinctIds(players) && multiset(players) == multiset(shuffled)
    requires IsGrouping(players, radius, one) && IsGrouping(shuffled, radius, two)
    ensures one == two
  {
    SamePlayersSameGrouping(shuffled, players, radius, two);
    GroupsStrictlyOrdered(players, radius, one);
    GroupsStrictlyOrdered(players, radius, two);
    forall x ensures x in one <==> x in two {
      if x in one {
        var g :| 0 <= g < |one| && one[g] == x;
        var h := SameGroup(players, radius, one, two, g);
      }
      if x in two {
        var g :| 0 <= g < |two| && two[g] == x;
        var h := SameGroup(players, radius, two, one, g);
      }
    }
    StrictOrderIsUnique(StrictlyPrecedes, one, two);
  }

  // ----- what a grouping is told in positions and ids ----------------------------------------------

  /** One player's centroid is where it stands, and each further one moves it by its share. */
  lemma CentroidGrows(members: seq<Player>, p: Player)
    ensures Mean([p]) == p.position
    ensures members != [] ==>
      var n, before, after := |members| as real, Mean(members), Mean(members + [p]);
      && after.x * (n + 1.0) == before.x * n + p.position.x
      && after.y * (n + 1.0) == before.y * n + p.position.y
      && after.z * (n + 1.0) == before.z * n + p.position.z
  {
    assert [p][..0] == [] && SumOf([p]) == p.position;
    assert (members + [p])[..|members|] == members;
  }

  /** Two players are linked when they are no further apart than the radius over the ground, whatever their heights. */
  lemma LinkedExactly(radius: real, p: Player, q: Player, dx: real, dz: real)
    requires dx == q.position.x - p.position.x && dz == q.position.z - p.position.z
    ensures Linked(radius, p, q) <==> dx * dx + dz * dz <= radius * radius
  {
    HorizontalIs(p.position, q.position, dx, dz);
  }

  /** Groups go by size, the larger first, and by the lowest id in them; in a group players go by id. */
  lemma OrderedExactly(players: seq<Player>, radius: real, groups: seq<seq<Player>>, g: nat, i: nat)
    requires IsGrouping(players, radius, groups) && g < |groups| && i < |groups[g]|
    ensures i + 1 < |groups[g]| ==> groups[g][i].id <= groups[g][i + 1].id
    ensures g + 1 < |groups| ==>
      && groups[g + 1] != [] && |groups[g]| >= |groups[g + 1]|
      && (|groups[g]| == |groups[g + 1]| ==> groups[g][0].id <= groups[g + 1][0].id)
  {
    assert groups[g] in groups;
    if g + 1 < |groups| {
      assert groups[g + 1] in groups;
    }
  }
}
