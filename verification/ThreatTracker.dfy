/** How long players have gone without a squad near them. */
module ThreatTracker {
  import opened Geometry
  import opened Players
  import opened Wrappers

  /** One call: who was there, and where squads were. */
  datatype Sighting = Sighting(tick: nat, players: seq<Player>, cursors: seq<Vec3>, radius: real)

  predicate Near(p: Vec3, cursors: seq<Vec3>, radius: real) {
    exists c | c in cursors :: Horizontal2(p, c) <= radius * radius
  }

  predicate Present(s: Sighting, id: nat) {
    exists p | p in s.players :: p.id == id
  }

  predicate Threatened(s: Sighting, id: nat) {
    exists p | p in s.players :: p.id == id && Near(p.position, s.cursors, s.radius)
  }

  /** Index `i` is where the player's present stay began, or the last time it was threatened
      since: the player has been there ever since, and nothing has happened to it later. */
  ghost predicate Marks(history: seq<Sighting>, id: nat, i: nat) {
    && i < |history|
    && (forall j :: i <= j < |history| ==> Present(history[j], id))
    && (Threatened(history[i], id) || i == 0 || !Present(history[i - 1], id))
    && (forall j :: i < j < |history| ==> !Threatened(history[j], id))
  }

  ghost predicate Tracked(history: seq<Sighting>, id: nat) {
    history != [] && Present(history[|history| - 1], id)
  }

  /** Such an index is the only one of its kind. */
  lemma MarkIsUnique(history: seq<Sighting>, id: nat, i: nat, j: nat)
    requires Marks(history, id, i) && Marks(history, id, j)
    ensures i == j
  {
    hide Threatened, Present;
  }

  /** The tick each player is stamped with, after any sequence of sightings. */
  ghost predicate Refines(history: seq<Sighting>, last: map<nat, nat>) {
    && (forall id :: id in last <==> Tracked(history, id))
    && (forall id :: id in last ==> Stamped(history, id, last[id]))
  }

  ghost predicate Stamped(history: seq<Sighting>, id: nat, tick: nat) {
    exists i: nat :: Marks(history, id, i) && history[i].tick == tick
  }

  lemma NextMark(history: seq<Sighting>, s: Sighting, id: nat, tick: nat)
    requires Present(s, id)
    requires Tracked(history, id) && !Threatened(s, id) ==> Stamped(history, id, tick)
    requires !Tracked(history, id) || Threatened(s, id) ==> tick == s.tick
    ensures Stamped(history + [s], id, tick)
  {
    hide Present, Threatened;
    var n := |history|;
    if Tracked(history, id) && !Threatened(s, id) {
      var i: nat :| Marks(history, id, i) && history[i].tick == tick;
      assert Marks(history + [s], id, i);
    } else {
      assert Marks(history + [s], id, n);
    }
  }

  // ----- how long a group has waited ----------------------------------------------------------

  predicate AnyTracked(last: map<nat, nat>, members: seq<nat>) {
    exists id | id in members :: id in last
  }

  /** The latest stamp among the members that have one. */
  function Latest(last: map<nat, nat>, members: seq<nat>): nat {
    if members == [] then 0
    else
      var before, id := Latest(last, members[..|members| - 1]), members[|members| - 1];
      if id in last && last[id] > before then last[id] else before
  }

  function Starved(last: map<nat, nat>, members: seq<nat>, tick: nat): nat {
    if !AnyTracked(last, members) || Latest(last, members) >= tick then 0 else tick - Latest(last, members)
  }

  lemma {:induction false} LatestIs(last: map<nat, nat>, members: seq<nat>)
    ensures forall id :: id in members && id in last ==> last[id] <= Latest(last, members)
    ensures Latest(last, members) == 0 || exists id :: id in members && id in last && last[id] == Latest(last, members)
  {
    if members != [] {
      assert members == members[..|members| - 1] + [members[|members| - 1]];
      LatestIs(last, members[..|members| - 1]);
    }
  }

  /** Two groups that come together have waited as long as the one that waited least; a
      group no one of which has been seen adds nothing. */
  lemma UnionStarves(last: map<nat, nat>, a: seq<nat>, b: seq<nat>, tick: nat)
    ensures AnyTracked(last, a) && AnyTracked(last, b) ==>
      Starved(last, a + b, tick) == if Starved(last, a, tick) <= Starved(last, b, tick) then Starved(last, a, tick)
        else Starved(last, b, tick)
    ensures !AnyTracked(last, b) ==> Starved(last, a + b, tick) == Starved(last, a, tick)
    ensures !AnyTracked(last, a) ==> Starved(last, a + b, tick) == Starved(last, b, tick)
  {
    UnionLatest(last, a, b);
    UntrackedLatest(last, a);
    UntrackedLatest(last, b);
    UnionTracked(last, a, b);
    hide Latest, AnyTracked;
  }

  lemma UnionTracked(last: map<nat, nat>, a: seq<nat>, b: seq<nat>)
    ensures AnyTracked(last, a + b) <==> AnyTracked(last, a) || AnyTracked(last, b)
  {
    if AnyTracked(last, a) {
      var id :| id in a && id in last;
      assert id in a + b;
    }
    if AnyTracked(last, b) {
      var id :| id in b && id in last;
      assert id in a + b;
    }
  }

  lemma {:induction false} UnionLatest(last: map<nat, nat>, a: seq<nat>, b: seq<nat>)
    ensures Latest(last, a + b) == if Latest(last, a) >= Latest(last, b) then Latest(last, a) else Latest(last, b)
  {
    if b == [] {
      assert a + b == a;
    } else {
      assert (a + b)[..|a + b| - 1] == a + b[..|b| - 1];
      UnionLatest(last, a, b[..|b| - 1]);
    }
  }

  lemma UntrackedLatest(last: map<nat, nat>, members: seq<nat>)
    ensures !AnyTracked(last, members) ==> Latest(last, members) == 0
  {
    LatestIs(last, members);
  }

  /** Near is over the ground, the radius included: to one squad or to another. */
  lemma NearExactly(p: Vec3, cursors: seq<Vec3>, c: Vec3, radius: real, dx: real, dz: real)
    requires dx == c.x - p.x && dz == c.z - p.z
    ensures Near(p, cursors + [c], radius) <==> Near(p, cursors, radius) || dx * dx + dz * dz <= radius * radius
    ensures !Near(p, [], radius)
  {
    HorizontalIs(p, c, dx, dz);
    hide Horizontal2;
    assert c in cursors + [c] && forall d :: d in cursors ==> d in cursors + [c];
  }

  /** No more than any of the members on record has gone without, and as long as one of them; nothing where nobody
      is on record. */
  lemma StarvedExactly(last: map<nat, nat>, members: seq<nat>, tick: nat)
    ensures forall id :: id in members && id in last ==>
      last[id] + Starved(last, members, tick) <= tick || Starved(last, members, tick) == 0
    ensures (exists id :: id in members && id in last)
      && (forall id :: id in members && id in last ==> last[id] <= tick)
      ==> exists id :: id in members && id in last && last[id] + Starved(last, members, tick) == tick
    ensures (forall id :: id in members ==> id !in last) ==> Starved(last, members, tick) == 0
  {
    LatestIs(last, members);
    if id :| id in members && id in last {
      assert AnyTracked(last, members);
      if Latest(last, members) == 0 {
        assert last[id] == 0;
      }
    }
  }

  // ----- the tracker --------------------------------------------------------------------------------

  class PlayerThreatTracker {
    var last: map<nat, nat>
    ghost var history: seq<Sighting>

    constructor ()
      ensures Valid() && history == []
    {
      last, history := map[], [];
    }

    ghost predicate Valid()
      reads this
    {
      Refines(history, last)
    }

    /** Everyone listed is stamped if new or threatened, and everyone else is forgotten. */
    method Observe(s: Sighting)
      requires Valid()
      modifies this
      ensures Valid() && history == old(history) + [s]
    {
      ghost var before := last;
      var present: set<nat> := {};
      NothingLookedAt(before, s);
      hide Refines, Looking, Near, OnlyPresent;
      for k := 0 to |s.players|
        invariant Looking(before, last, present, s, k) && history == old(history)
      {
        var player := s.players[k];
        var threatened := ThreatenedAt(player.position, s.cursors, s.radius);
        LookNext(before, last, present, s, k, threatened);
        present := present + {player.id};
        if player.id !in last || threatened {
          last := last[player.id := s.tick];
        }
      }
      LookedAtAll(history, before, last, present, s);
      last := OnlyPresent(last, present);
      history := history + [s];
    }

    method GroupStarvedTicks(members: seq<nat>, tick: nat) returns (starved: nat)
      ensures starved == Starved(last, members, tick)
    {
      var latest, any := 0, false;
      for k := 0 to |members|
        invariant any <==> AnyTracked(last, members[..k])
        invariant latest == Latest(last, members[..k])
      {
        assert members[..k + 1] == members[..k] + [members[k]];
        UnionTracked(last, members[..k], [members[k]]);
        UnionLatest(last, members[..k], [members[k]]);
        UntrackedLatest(last, members[..k]);
        var id := members[k];
        if id !in last {
          continue;
        }
        assert AnyTracked(last, [id]);
        latest := if any && latest >= last[id] then latest else last[id];
        any := true;
      }
      assert members[..|members|] == members;
      if !any || latest >= tick {
        return 0;
      }
      return tick - latest;
    }
  }

  function OnlyPresent(last: map<nat, nat>, present: set<nat>): map<nat, nat> {
    map id | id in last && id in present :: last[id]
  }

  predicate Listed(s: Sighting, k: nat, id: nat)
    requires k <= |s.players|
  {
    exists j | 0 <= j < k :: s.players[j].id == id
  }

  /** What the first `k` players listed have made of the stamps. */
  ghost predicate Looking(before: map<nat, nat>, last: map<nat, nat>, present: set<nat>, s: Sighting, k: nat) {
    && k <= |s.players|
    && (forall id :: id in present <==> Listed(s, k, id))
    && (forall id :: id in last <==> id in before || id in present)
    && (forall id :: id in last ==> last[id] == Stamp(before, s, k, id))
  }

  lemma NothingLookedAt(before: map<nat, nat>, s: Sighting)
    ensures Looking(before, before, {}, s, 0)
  {
  }

  lemma ListedNext(s: Sighting, k: nat, id: nat)
    requires k < |s.players|
    ensures Listed(s, k + 1, id) <==> Listed(s, k, id) || s.players[k].id == id
    ensures ThreatenedBy(s, k + 1, id) <==>
      ThreatenedBy(s, k, id) || (s.players[k].id == id && Near(s.players[k].position, s.cursors, s.radius))
  {
    hide Near;
  }

  lemma LookNext(before: map<nat, nat>, last: map<nat, nat>, present: set<nat>, s: Sighting, k: nat, threatened: bool)
    requires Looking(before, last, present, s, k) && k < |s.players|
    requires threatened <==> Near(s.players[k].position, s.cursors, s.radius)
    ensures var id := s.players[k].id;
      Looking(before, if id !in last || threatened then last[id := s.tick] else last, present + {id}, s, k + 1)
  {
    hide Near, Listed, ThreatenedBy;
    forall id: nat
      ensures Listed(s, k + 1, id) <==> Listed(s, k, id) || s.players[k].id == id
      ensures ThreatenedBy(s, k + 1, id) <==>
        ThreatenedBy(s, k, id) || (s.players[k].id == id && Near(s.players[k].position, s.cursors, s.radius))
    {
      ListedNext(s, k, id);
    }
  }

  lemma LookedAtAll(history: seq<Sighting>, before: map<nat, nat>, last: map<nat, nat>, present: set<nat>, s: Sighting)
    requires Refines(history, before) && Looking(before, last, present, s, |s.players|)
    ensures Refines(history + [s], OnlyPresent(last, present))
  {
    hide Near, Refines;
    forall id: nat ensures Listed(s, |s.players|, id) <==> Present(s, id) {
    }
    hide Listed, Present;
    ObservedRefines(history, s, before, OnlyPresent(last, present));
  }

  method ThreatenedAt(position: Vec3, cursors: seq<Vec3>, radius: real) returns (near: bool)
    ensures near <==> Near(position, cursors, radius)
  {
    for c := 0 to |cursors|
      invariant forall i :: 0 <= i < c ==> Horizontal2(position, cursors[i]) > radius * radius
    {
      if Horizontal2(position, cursors[c]) <= radius * radius {
        return true;
      }
    }
    return false;
  }

  predicate ThreatenedBy(s: Sighting, k: nat, id: nat)
    requires k <= |s.players|
  {
    exists j | 0 <= j < k :: s.players[j].id == id && Near(s.players[j].position, s.cursors, s.radius)
  }

  /** A player's stamp once `k` of those listed have been looked at. */
  ghost function Stamp(before: map<nat, nat>, s: Sighting, k: nat, id: nat): nat
    requires k <= |s.players|
  {
    if id in before && !ThreatenedBy(s, k, id) then before[id] else s.tick
  }

  lemma ObservedRefines(history: seq<Sighting>, s: Sighting, before: map<nat, nat>, after: map<nat, nat>)
    requires Refines(history, before)
    requires forall id :: id in after <==> Present(s, id)
    requires forall id :: id in after ==> after[id] == Stamp(before, s, |s.players|, id)
    ensures Refines(history + [s], after)
  {
    forall id: nat ensures ThreatenedBy(s, |s.players|, id) <==> Threatened(s, id) {
    }
    hide Present, Threatened, ThreatenedBy, Stamped;
    assert (history + [s])[|history|] == s;
    forall id | id in after ensures Stamped(history + [s], id, after[id]) {
      NextMark(history, s, id, after[id]);
    }
  }
}
