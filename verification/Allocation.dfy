/** Which group of players a patrol is aimed at next, and how big the squad is. */
module Allocation {
  import opened Sorting
  import opened Wrappers
  import Composition

  datatype Tier = Tier(membersMin: nat, membersMax: nat, countMin: nat, countMax: nat,
                       composition: seq<Composition.Entry>)

  datatype Shape = Shape(countMin: nat, countMax: nat, composition: seq<Composition.Entry>)

  /** `floorTicks` of 0 is no floor. */
  datatype Around = Around(groupsPerMember: real, groupsPerPlayer: real, floorTicks: nat)

  /** `base` is the squad of a definition that authors no tiers. */
  datatype Aim = Aim(around: Around, tiers: seq<Tier>, base: Shape)

  datatype Candidate = Candidate(members: nat, squadsNear: nat, starved: nat)

  datatype State = State(liveGroups: nat, players: nat, intervalElapsed: bool, agentRoom: nat)

  datatype Reason = Floor | Unthreatened | UnderCap

  datatype Choice = Choice(index: nat, reason: Reason, shape: Shape)

  // ----- the caps ------------------------------------------------------------------------

  function Ceil(x: real): int {
    -((-x).Floor)
  }

  const HAIR: real := 0.0001

  /** Rounded up, less a hair. */
  function CeilProduct(count: nat, per: real): (cap: nat)
    ensures var product := count as real * per;
      if product > 0.0 then product - HAIR <= cap as real < product - HAIR + 1.0 else cap == 0
  {
    var product := count as real * per;
    if product > 0.0 then Ceil(product - HAIR) else 0
  }

  /** The hair costs a whole product nothing. */
  lemma WholeProduct(count: nat, per: nat)
    ensures CeilProduct(count, per as real) == count * per
  {
    assert count as real * per as real == (count * per) as real;
  }

  // ----- squad tiers ------------------------------------------------------------------------

  predicate Matches(tier: Tier, members: nat) {
    members >= tier.membersMin && (tier.membersMax == 0 || members <= tier.membersMax)
  }

  function ShapeOf(tier: Tier): Shape {
    Shape(tier.countMin, tier.countMax, tier.composition)
  }

  /** The first tier that matches, or else the definition's own squad. */
  function SquadShape(aim: Aim, members: nat): Shape {
    FirstShape(aim.tiers, aim.base, members)
  }

  function FirstShape(tiers: seq<Tier>, base: Shape, members: nat): Shape {
    if tiers == [] then base
    else if Matches(tiers[0], members) then ShapeOf(tiers[0])
    else FirstShape(tiers[1..], base, members)
  }

  method SquadShapeFor(aim: Aim, members: nat) returns (shape: Shape)
    ensures shape == SquadShape(aim, members)
  {
    for index := 0 to |aim.tiers|
      invariant SquadShape(aim, members) == FirstShape(aim.tiers[index..], aim.base, members)
    {
      if Matches(aim.tiers[index], members) {
        return ShapeOf(aim.tiers[index]);
      }
    }
    return aim.base;
  }

  const WIDTH: nat := 0x1_0000_0000

  predicate Wide(tiers: seq<Tier>) {
    forall i :: 0 <= i < |tiers| ==> tiers[i].membersMin < WIDTH && tiers[i].membersMax < WIDTH
  }

  predicate ValidShape(shape: Shape) {
    Composition.Valid(shape.composition, shape.countMin, shape.countMax)
  }

  predicate ValidTier(tier: Tier) {
    ValidShape(ShapeOf(tier))
  }

  /** What the tier after this one has to start at; the counter is 32 bits wide. */
  function After(tier: Tier): nat {
    (tier.membersMax + 1) % WIDTH
  }

  predicate StartsRight(tiers: seq<Tier>, i: int)
    requires 0 <= i < |tiers|
  {
    tiers[i].membersMin == if i == 0 then 1 else After(tiers[i - 1])
  }

  predicate Chained(tiers: seq<Tier>) {
    && (forall i :: 0 <= i < |tiers| ==> ValidTier(tiers[i]))
    && (forall i :: 0 <= i < |tiers| ==> StartsRight(tiers, i))
    && (forall i :: 0 <= i < |tiers| - 1 ==> 0 != tiers[i].membersMax >= tiers[i].membersMin)
  }

  method ValidateSquadTiers(tiers: seq<Tier>) returns (accepted: bool)
    requires Wide(tiers)
    ensures accepted <==> Chained(tiers) && (tiers != [] ==> tiers[|tiers| - 1].membersMax == 0)
  {
    hide ValidTier, After;
    var nextMembers := 1;
    for index := 0 to |tiers|
      invariant index < |tiers| ==> nextMembers == if index == 0 then 1 else After(tiers[index - 1])
      invariant forall i :: 0 <= i < index ==> ValidTier(tiers[i])
      invariant forall i :: 0 <= i < index ==> StartsRight(tiers, i)
      invariant forall i :: 0 <= i < index && i < |tiers| - 1 ==> 0 != tiers[i].membersMax >= tiers[i].membersMin
      invariant index == |tiers| > 0 ==> tiers[index - 1].membersMax == 0
    {
      var tier, last := tiers[index], index + 1 == |tiers|;
      assert StartsRight(tiers, index) <==> tier.membersMin == nextMembers;
      if tier.membersMin != nextMembers {
        return false;
      }
      if tier.membersMax == 0 {
        if !last {
          return false;
        }
      } else {
        if tier.membersMax < tier.membersMin || last {
          return false;
        }
        nextMembers := After(tier);
      }
      var verdict := Composition.ValidateSpawnComposition(tier.composition, tier.countMin, tier.countMax);
      assert ValidTier(tier) <==> verdict == Composition.Accepted by { ShapeVerdict(tier, verdict); }
      if verdict != Composition.Accepted {
        return false;
      }
    }
    return true;
  }

  lemma ShapeVerdict(tier: Tier, verdict: Composition.Verdict)
    requires verdict == Composition.Accepted <==> Composition.Valid(tier.composition, tier.countMin, tier.countMax)
    ensures ValidTier(tier) <==> verdict == Composition.Accepted
  {
  }

  predicate Accepted(tiers: seq<Tier>) {
    tiers != [] && Chained(tiers) && tiers[|tiers| - 1].membersMax == 0
  }

  /** Every group size matches one tier, and no other. */
  ghost predicate ExactlyOnce(tiers: seq<Tier>) {
    forall members: nat | 1 <= members < WIDTH :: MatchedOnce(tiers, members)
  }

  ghost predicate MatchedOnce(tiers: seq<Tier>, members: nat) {
    exists i: nat | i < |tiers| :: OnlyMatch(tiers, members, i)
  }

  ghost predicate OnlyMatch(tiers: seq<Tier>, members: nat, i: nat)
    requires i < |tiers|
  {
    Matches(tiers[i], members) && forall j :: 0 <= j < |tiers| && j != i ==> !Matches(tiers[j], members)
  }

  /** The tiers up to one ascend, so long as none of them ends at the widest number. */
  lemma {:induction false} TiersAscend(tiers: seq<Tier>, i: nat, j: nat)
    requires Wide(tiers) && Accepted(tiers) && i < j < |tiers|
    requires forall k :: 0 <= k < j ==> tiers[k].membersMax != WIDTH - 1
    ensures 0 < tiers[i].membersMax < tiers[j].membersMin
  {
    assert StartsRight(tiers, j);
    if i < j - 1 {
      TiersAscend(tiers, i, j - 1);
    }
  }

  lemma {:induction false} SomeTierMatches(tiers: seq<Tier>, members: nat, n: nat) returns (i: nat)
    requires Wide(tiers) && Accepted(tiers) && 1 <= members && n < |tiers|
    requires forall k :: 0 <= k < n ==> tiers[k].membersMax != WIDTH - 1
    requires tiers[n].membersMax == 0 || members <= tiers[n].membersMax
    ensures i <= n && Matches(tiers[i], members)
  {
    i := n;
    if members < tiers[n].membersMin {
      assert StartsRight(tiers, n) && n > 0;
      i := SomeTierMatches(tiers, members, n - 1);
    }
  }

  /** The validator's promise, and the one way past it: a tier that is not the last and
      ends at the widest 32-bit number makes the next one start over at 0. */
  lemma TiersMatchOnce(tiers: seq<Tier>)
    requires Wide(tiers) && Accepted(tiers)
    ensures ExactlyOnce(tiers) <==> forall i :: 0 <= i < |tiers| ==> tiers[i].membersMax != WIDTH - 1
  {
    if forall i :: 0 <= i < |tiers| ==> tiers[i].membersMax != WIDTH - 1 {
      forall members: nat | 1 <= members < WIDTH ensures MatchedOnce(tiers, members) {
        var i := SomeTierMatches(tiers, members, |tiers| - 1);
        forall j | 0 <= j < |tiers| && j != i ensures !Matches(tiers[j], members) {
          if i < j { TiersAscend(tiers, i, j); } else { TiersAscend(tiers, j, i); }
        }
        assert OnlyMatch(tiers, members, i);
      }
    } else {
      var i := FirstWidest(tiers, |tiers|);
      WidestMatchedTwice(tiers, i);
    }
  }

  lemma {:induction false} FirstWidest(tiers: seq<Tier>, n: nat) returns (i: nat)
    requires n <= |tiers| && exists i :: 0 <= i < n && tiers[i].membersMax == WIDTH - 1
    ensures i < n && tiers[i].membersMax == WIDTH - 1
    ensures forall k :: 0 <= k < i ==> tiers[k].membersMax != WIDTH - 1
  {
    if exists i :: 0 <= i < n - 1 && tiers[i].membersMax == WIDTH - 1 {
      i := FirstWidest(tiers, n - 1);
    } else {
      i := n - 1;
    }
  }

  lemma WidestMatchedTwice(tiers: seq<Tier>, i: nat)
    requires Wide(tiers) && Accepted(tiers) && i < |tiers| && tiers[i].membersMax == WIDTH - 1
    requires forall k :: 0 <= k < i ==> tiers[k].membersMax != WIDTH - 1
    ensures !ExactlyOnce(tiers)
  {
    var next := tiers[i + 1];
    assert StartsRight(tiers, i + 1);
    assert next.membersMin == After(tiers[i]) == 0;
    var members := 1;
    assert Matches(next, members);
    var first := SomeTierMatches(tiers, members, i);
    assert first != i + 1 && !MatchedOnce(tiers, members);
  }

  /** Such a table is accepted: one player matches both its tiers, the second of which
      starts over at 0. */
  lemma WrappedTierAccepted()
    ensures var squad := [Composition.Entry(1, 1, 1)];
      var tiers := [Tier(1, WIDTH - 1, 1, 1, squad), Tier(0, 0, 1, 1, squad)];
      && Wide(tiers) && Accepted(tiers)
      && Matches(tiers[0], 1) && Matches(tiers[1], 1) && !ExactlyOnce(tiers)
  {
    var squad := [Composition.Entry(1, 1, 1)];
    var tiers := [Tier(1, WIDTH - 1, 1, 1, squad), Tier(0, 0, 1, 1, squad)];
    assert Composition.Floors(squad) == [1] && Composition.Ceilings(squad) == [1] && [1][..0] == [];
    assert forall i :: 0 <= i < |tiers| ==> ValidTier(tiers[i]) && StartsRight(tiers, i);
    TiersMatchOnce(tiers);
  }

  /** Whatever the group's size, an accepted table gives it a squad that always comes out
      exactly as big as it was asked to be. */
  lemma SquadComesOutExact(aim: Aim, members: nat)
    requires Wide(aim.tiers) && Accepted(aim.tiers) && 1 <= members < WIDTH
    ensures var shape := SquadShape(aim, members);
      && Composition.Valid(shape.composition, shape.countMin, shape.countMax)
      && Composition.AlwaysExact(shape.composition, shape.countMin, shape.countMax)
  {
    var n: nat := if exists i :: 0 <= i < |aim.tiers| && aim.tiers[i].membersMax == WIDTH - 1
                  then Widest(aim.tiers) else |aim.tiers| - 1;
    var i := SomeTierMatches(aim.tiers, members, n);
    var shape := FirstMatch(aim.tiers, aim.base, members);
    Composition.ValidMeansExact(shape.composition, shape.countMin, shape.countMax);
  }

  ghost function Widest(tiers: seq<Tier>): (i: nat)
    requires exists i :: 0 <= i < |tiers| && tiers[i].membersMax == WIDTH - 1
    ensures i < |tiers| && tiers[i].membersMax == WIDTH - 1
    ensures forall k :: 0 <= k < i ==> tiers[k].membersMax != WIDTH - 1
  {
    if tiers[0].membersMax == WIDTH - 1 then 0
    else
      assert forall i :: 0 < i < |tiers| ==> tiers[1..][i - 1] == tiers[i];
      var rest := Widest(tiers[1..]);
      rest + 1
  }

  lemma {:induction false} FirstMatch(tiers: seq<Tier>, base: Shape, members: nat) returns (shape: Shape)
    requires exists i :: 0 <= i < |tiers| && Matches(tiers[i], members)
    requires forall i :: 0 <= i < |tiers| ==> ValidTier(tiers[i])
    ensures shape == FirstShape(tiers, base, members)
    ensures Composition.Valid(shape.composition, shape.countMin, shape.countMax)
  {
    shape := FirstShape(tiers, base, members);
    assert ValidTier(tiers[0]);
    if !Matches(tiers[0], members) {
      var i :| 0 <= i < |tiers| && Matches(tiers[i], members);
      assert Matches(tiers[1..][i - 1], members);
      shape := FirstMatch(tiers[1..], base, members);
    }
  }

  // ----- the order candidates are served in ---------------------------------------------------

  predicate UnderGroupCap(around: Around, c: Candidate) {
    c.squadsNear < CeilProduct(c.members, around.groupsPerMember)
  }

  predicate UnderDefinitionCap(around: Around, state: State) {
    state.liveGroups < CeilProduct(state.players, around.groupsPerPlayer)
  }

  predicate Starved(around: Around, c: Candidate) {
    around.floorTicks != 0 && c.starved >= around.floorTicks
  }

  /** Whether a candidate may be served for this reason. */
  predicate Qualifies(reason: Reason, around: Around, c: Candidate) {
    UnderGroupCap(around, c) &&
    match reason
    case Floor => Starved(around, c)
    case Unthreatened => c.squadsNear == 0
    case UnderCap => c.squadsNear > 0
  }

  /** Whether this reason may be used at all: only the floor passes the interval and the
      definition's cap. */
  predicate Enabled(reason: Reason, around: Around, state: State) {
    reason == Floor || (state.intervalElapsed && UnderDefinitionCap(around, state))
  }

  predicate Sooner(reason: Reason, a: Candidate, b: Candidate) {
    match reason
    case Floor => a.starved > b.starved
    case Unthreatened => if a.members != b.members then a.members > b.members else a.starved > b.starved
    case UnderCap => a.members > b.members
  }

  function Rank(reason: Reason): nat {
    match reason
    case Floor => 0
    case Unthreatened => 1
    case UnderCap => 2
  }

  predicate Fits(aim: Aim, state: State, c: Candidate) {
    SquadShape(aim, c.members).countMax <= state.agentRoom
  }

  /** A candidate that can be served for this reason. */
  predicate Servable(reason: Reason, aim: Aim, state: State, c: Candidate) {
    Enabled(reason, aim.around, state) && Qualifies(reason, aim.around, c) && Fits(aim, state, c)
  }

  /** Served before, within one reason: sooner, or level and earlier in the list. */
  predicate Ahead(reason: Reason, candidates: seq<Candidate>, i: nat, j: nat)
    requires i < |candidates| && j < |candidates|
  {
    Sooner(reason, candidates[i], candidates[j]) || (!Sooner(reason, candidates[j], candidates[i]) && i < j)
  }

  /** The choice is what comes first of everything that can be served. */
  ghost predicate Least(aim: Aim, candidates: seq<Candidate>, state: State, choice: Choice) {
    && choice.index < |candidates|
    && Servable(choice.reason, aim, state, candidates[choice.index])
    && choice.shape == SquadShape(aim, candidates[choice.index].members)
    && forall reason, j: nat | j < |candidates| && Servable(reason, aim, state, candidates[j]) ::
         || Rank(choice.reason) < Rank(reason)
         || (choice.reason == reason && (j == choice.index || Ahead(reason, candidates, choice.index, j)))
  }

  ghost predicate NothingServable(aim: Aim, candidates: seq<Candidate>, state: State) {
    forall reason, j: nat | j < |candidates| :: !Servable(reason, aim, state, candidates[j])
  }

  // ----- the algorithm: filter, stable sort, first that fits ------------------------------------

  method Qualifying(reason: Reason, around: Around, candidates: seq<Candidate>) returns (order: seq<nat>)
    ensures forall i, j :: 0 <= i < j < |order| ==> order[i] < order[j]
    ensures forall k: nat :: k in order <==> k < |candidates| && Qualifies(reason, around, candidates[k])
  {
    hide Qualifies;
    order := [];
    for index := 0 to |candidates|
      invariant forall i, j :: 0 <= i < j < |order| ==> order[i] < order[j]
      invariant forall i :: 0 <= i < |order| ==> order[i] < index
      invariant forall k: nat :: k in order <==> k < index && Qualifies(reason, around, candidates[k])
    {
      if Qualifies(reason, around, candidates[index]) {
        order := order + [index];
      }
    }
  }

  /** Positions compared by their candidates, one out of range coming last. */
  function Served(reason: Reason, candidates: seq<Candidate>): (nat, nat) -> bool {
    (i: nat, j: nat) => i < |candidates| && (j >= |candidates| || Sooner(reason, candidates[i], candidates[j]))
  }

  lemma ServedIsOrder(reason: Reason, candidates: seq<Candidate>)
    ensures StrictWeak(Served(reason, candidates))
  {
  }

  method InOrder(reason: Reason, around: Around, candidates: seq<Candidate>) returns (order: seq<nat>)
    ensures forall k: nat :: k in order <==> k < |candidates| && Qualifies(reason, around, candidates[k])
    ensures forall i, j :: 0 <= i < j < |order| && order[i] < |candidates| && order[j] < |candidates| ==>
      Ahead(reason, candidates, order[i], order[j])
  {
    hide Qualifies, StrictWeak, StableSort;
    var found := Qualifying(reason, around, candidates);
    order := StableSort(Served(reason, candidates), found);
    ServedIsOrder(reason, candidates);
    SortOrders(Served(reason, candidates), (i: nat, j: nat) => i < j, found);
    forall k: nat ensures k in order <==> k in found {
      assert k in order <==> k in multiset(order);
    }
    forall i, j | 0 <= i < j < |order| && order[i] < |candidates| && order[j] < |candidates|
      ensures Ahead(reason, candidates, order[i], order[j])
    {
      assert Before(Served(reason, candidates), (i: nat, j: nat) => i < j, order[i], order[j]);
    }
  }

  /** The first to fit of those that qualify. */
  method FirstThatFits(reason: Reason, aim: Aim, candidates: seq<Candidate>, state: State)
      returns (choice: Option<Choice>)
    requires Enabled(reason, aim.around, state)
    ensures choice.None? ==> forall j: nat | j < |candidates| :: !Servable(reason, aim, state, candidates[j])
    ensures choice.Some? ==>
      && choice.value.reason == reason && choice.value.index < |candidates|
      && Servable(reason, aim, state, candidates[choice.value.index])
      && choice.value.shape == SquadShape(aim, candidates[choice.value.index].members)
      && forall j: nat | j < |candidates| && Servable(reason, aim, state, candidates[j]) ::
           j == choice.value.index || Ahead(reason, candidates, choice.value.index, j)
  {
    hide Qualifies, Enabled, SquadShape, Ahead;
    var order := InOrder(reason, aim.around, candidates);
    for at := 0 to |order|
      invariant forall k :: 0 <= k < at ==> order[k] < |candidates| && !Fits(aim, state, candidates[order[k]])
    {
      var index := order[at];
      assert index in order;
      var shape := SquadShapeFor(aim, candidates[index].members);
      if shape.countMax <= state.agentRoom {
        forall j: nat | j < |candidates| && Servable(reason, aim, state, candidates[j])
          ensures j == index || Ahead(reason, candidates, index, j)
        {
          var k :| 0 <= k < |order| && order[k] == j;
          assert k >= at;
        }
        return Some(Choice(index, reason, shape));
      }
    }
    forall j: nat | j < |candidates| ensures !Servable(reason, aim, state, candidates[j]) {
      assert Servable(reason, aim, state, candidates[j]) ==> j in order;
    }
    return None;
  }

  method ChoosePatrolTarget(aim: Aim, candidates: seq<Candidate>, state: State) returns (choice: Option<Choice>)
    ensures choice.None? <==> NothingServable(aim, candidates, state)
    ensures choice.Some? ==> Least(aim, candidates, state, choice.value)
    ensures choice.Some? ==> choice.value.shape.countMax <= state.agentRoom
    ensures choice.Some? && choice.value.reason != Floor ==>
      state.intervalElapsed && state.liveGroups + 1 <= CeilProduct(state.players, aim.around.groupsPerPlayer)
  {
    hide Qualifies, SquadShape, Ahead, CeilProduct;
    choice := FirstThatFits(Floor, aim, candidates, state);
    if choice.Some? {
      return;
    }
    if !state.intervalElapsed || !UnderDefinitionCap(aim.around, state) {
      return None;
    }
    choice := FirstThatFits(Unthreatened, aim, candidates, state);
    if choice.Some? {
      return;
    }
    choice := FirstThatFits(UnderCap, aim, candidates, state);
  }

  /** There is one least choice, so the list decides it and nothing else does. */
  lemma LeastIsUnique(aim: Aim, candidates: seq<Candidate>, state: State, a: Choice, b: Choice)
    requires Least(aim, candidates, state, a) && Least(aim, candidates, state, b)
    ensures a == b
  {
    LeastBeats(aim, candidates, state, a, b.reason, b.index);
    LeastBeats(aim, candidates, state, b, a.reason, a.index);
    hide CeilProduct, SquadShape, Servable;
  }

  lemma LeastBeats(aim: Aim, candidates: seq<Candidate>, state: State, choice: Choice, reason: Reason, j: nat)
    requires Least(aim, candidates, state, choice) && j < |candidates| && Servable(reason, aim, state, candidates[j])
    ensures Rank(choice.reason) < Rank(reason) ||
      (choice.reason == reason && (j == choice.index || Ahead(reason, candidates, choice.index, j)))
  {
    hide Servable, Ahead, Rank;
  }

  /** A starved group that fits is never passed over for one that is not starved. */
  lemma StarvedFirst(aim: Aim, candidates: seq<Candidate>, state: State, choice: Choice, i: nat)
    requires Least(aim, candidates, state, choice)
    requires i < |candidates| && Starved(aim.around, candidates[i]) && UnderGroupCap(aim.around, candidates[i])
    requires Fits(aim, state, candidates[i])
    ensures choice.reason == Floor && candidates[choice.index].starved >= candidates[i].starved
  {
    hide CeilProduct, SquadShape;
    LeastBeats(aim, candidates, state, choice, Floor, i);
  }
}
