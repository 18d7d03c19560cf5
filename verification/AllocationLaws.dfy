/** Whom a patrol is aimed at first, told in players, squads and ticks. */
module AllocationLaws {
  import opened Allocation
  import Composition

  /** So many squads are under a cap of so many a head: the product less the hair. */
  predicate UnderCapOf(squads: nat, heads: nat, per: real) {
    squads as real < heads as real * per - 0.0001
  }

  lemma CapIs(squads: nat, heads: nat, per: real)
    ensures squads < CeilProduct(heads, per) <==> UnderCapOf(squads, heads, per)
  {
    var product := heads as real * per;
    var cap := CeilProduct(heads, per);
    assert product > 0.0 ==> product - 0.0001 <= cap as real < product - 0.0001 + 1.0;
    if squads < cap {
      assert (squads + 1) as real <= cap as real;
    }
  }

  /** The squad for a group: that of the first tier its size falls in, or the definition's own. */
  lemma {:induction false} TierIs(tiers: seq<Tier>, base: Shape, members: nat, i: nat)
    requires i <= |tiers|
    requires forall j :: 0 <= j < i ==>
      members < tiers[j].membersMin || (tiers[j].membersMax != 0 && members > tiers[j].membersMax)
    requires i < |tiers| ==>
      members >= tiers[i].membersMin && (tiers[i].membersMax == 0 || members <= tiers[i].membersMax)
    ensures FirstShape(tiers, base, members) ==
      if i == |tiers| then base else Shape(tiers[i].countMin, tiers[i].countMax, tiers[i].composition)
  {
    if tiers != [] && i > 0 {
      TierIs(tiers[1..], base, members, i - 1);
    }
  }

  /** May be served: it has fewer squads near than its members allow and its largest squad fits, and either it has
      gone without for long enough, or the interval is up, the definition has fewer squads than its players allow, and
      it has none near, or some. */
  predicate MayServe(reason: Reason, around: Around, state: State, c: Candidate, shape: Shape) {
    && UnderCapOf(c.squadsNear, c.members, around.groupsPerMember) && shape.countMax <= state.agentRoom
    && (reason.Floor? ==> around.floorTicks > 0 && c.starved >= around.floorTicks)
    && (!reason.Floor? ==>
          state.intervalElapsed && UnderCapOf(state.liveGroups, state.players, around.groupsPerPlayer))
    && (reason.Unthreatened? ==> c.squadsNear == 0)
    && (reason.UnderCap? ==> c.squadsNear > 0)
  }

  /** With the squad for its size. */
  predicate Eligible(reason: Reason, aim: Aim, state: State, c: Candidate) {
    MayServe(reason, aim.around, state, c, FirstShape(aim.tiers, aim.base, c.members))
  }

  lemma ServedExactly(reason: Reason, aim: Aim, state: State, c: Candidate)
    ensures Servable(reason, aim, state, c) <==> Eligible(reason, aim, state, c)
  {
    hide CeilProduct, UnderCapOf, FirstShape;
    CapIs(c.squadsNear, c.members, aim.around.groupsPerMember);
    CapIs(state.liveGroups, state.players, aim.around.groupsPerPlayer);
  }

  /** The starved before the unthreatened, and those before any other; of the starved the longest starved first, of
      the others the larger, of the unthreatened at one size the longer starved; and then by place in the list. */
  predicate Outranks(a: Choice, candidates: seq<Candidate>, reason: Reason, j: nat)
    requires a.index < |candidates| && j < |candidates|
  {
    || (a.reason.Floor? && !reason.Floor?)
    || (a.reason.Unthreatened? && reason.UnderCap?)
    || (a.reason == reason && Precedes(reason, candidates[a.index], candidates[j], a.index <= j))
  }

  predicate Precedes(reason: Reason, c: Candidate, d: Candidate, listed: bool) {
    || (reason.Floor? && c.starved > d.starved)
    || (!reason.Floor? && c.members > d.members)
    || (reason.Unthreatened? && c.members == d.members && c.starved > d.starved)
    || (Level(reason, c, d) && listed)
  }

  /** Neither comes before the other. */
  predicate Level(reason: Reason, c: Candidate, d: Candidate) {
    && (!reason.UnderCap? ==> c.starved == d.starved)
    && (!reason.Floor? ==> c.members == d.members)
  }

  /** What is chosen may be served, with the squad for its size, and outranks everything else that may be. */
  lemma ChosenOutranks(aim: Aim, candidates: seq<Candidate>, state: State, choice: Choice, reason: Reason, j: nat)
    requires Least(aim, candidates, state, choice)
    ensures choice.index < |candidates|
    ensures choice.shape == FirstShape(aim.tiers, aim.base, candidates[choice.index].members)
    ensures MayServe(choice.reason, aim.around, state, candidates[choice.index], choice.shape)
    ensures j < |candidates| && Eligible(reason, aim, state, candidates[j]) ==> Outranks(choice, candidates, reason, j)
  {
    ServedExactly(choice.reason, aim, state, candidates[choice.index]);
    if j < |candidates| {
      ServedExactly(reason, aim, state, candidates[j]);
    }
    hide Servable, Eligible, FirstShape;
    if j < |candidates| && Servable(reason, aim, state, candidates[j]) {
      LeastBeats(aim, candidates, state, choice, reason, j);
    }
  }

  /** Nothing is chosen exactly where nothing may be served. */
  lemma NoneExactly(aim: Aim, candidates: seq<Candidate>, state: State)
    ensures NothingServable(aim, candidates, state)
      <==> forall reason, j: nat | j < |candidates| :: !Eligible(reason, aim, state, candidates[j])
  {
    hide Servable, Eligible;
    forall reason, j: nat | j < |candidates|
      ensures Servable(reason, aim, state, candidates[j]) <==> Eligible(reason, aim, state, candidates[j])
    {
      ServedExactly(reason, aim, state, candidates[j]);
    }
  }

  /** A tier starts where the one before it ends, in 32 bits, and that one is neither open at the top nor upside
      down. */
  predicate Follows(before: Tier, tier: Tier) {
    && 0 < before.membersMax && before.membersMin <= before.membersMax
    && tier.membersMin == (before.membersMax + 1) % 0x1_0000_0000
  }

  predicate FollowsAt(tiers: seq<Tier>, i: nat) {
    0 < i < |tiers| ==> Follows(tiers[i - 1], tiers[i])
  }

  /** A table is accepted from a lone player up: no gap and no overlap between one tier and the next, only the last one
      open at the top, and a squad in each that always comes out exact. */
  lemma TablesExactly(tiers: seq<Tier>)
    ensures Accepted(tiers) <==>
      && |tiers| > 0 && tiers[0].membersMin == 1 && tiers[|tiers| - 1].membersMax == 0
      && (forall i: nat :: FollowsAt(tiers, i))
      && (forall t :: t in tiers ==> Composition.Valid(t.composition, t.countMin, t.countMax))
  {
    hide Composition.Valid;
    if Accepted(tiers) {
      forall i: nat ensures FollowsAt(tiers, i) {
        assert 0 < i < |tiers| ==> StartsRight(tiers, i);
      }
      assert StartsRight(tiers, 0);
      forall t | t in tiers ensures Composition.Valid(t.composition, t.countMin, t.countMax) {
        assert ValidTier(t);
      }
    }
    if |tiers| > 0 && tiers[0].membersMin == 1 && tiers[|tiers| - 1].membersMax == 0
       && (forall i: nat :: FollowsAt(tiers, i))
       && (forall t :: t in tiers ==> Composition.Valid(t.composition, t.countMin, t.countMax)) {
      FollowingChains(tiers);
    }
  }

  lemma FollowingChains(tiers: seq<Tier>)
    requires |tiers| > 0 && tiers[0].membersMin == 1 && tiers[|tiers| - 1].membersMax == 0
    requires forall i: nat :: FollowsAt(tiers, i)
    requires forall t :: t in tiers ==> Composition.Valid(t.composition, t.countMin, t.countMax)
    ensures Accepted(tiers)
  {
    hide Composition.Valid;
    forall i | 0 <= i < |tiers| ensures ValidTier(tiers[i]) && StartsRight(tiers, i) {
      assert tiers[i] in tiers && FollowsAt(tiers, i);
    }
    forall i | 0 <= i < |tiers| - 1 ensures 0 != tiers[i].membersMax >= tiers[i].membersMin {
      assert FollowsAt(tiers, i + 1);
    }
  }
}
