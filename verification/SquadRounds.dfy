/** One server round of a squad as it runs, from the squad's own tick through the return
    pass to each member's controller, is one round of `SquadQuiescence`. */
module SquadRounds {
  import opened Geometry
  import opened Engagement
  import opened AgentEvents
  import opened ChaserController
  import opened SquadQuiescence
  import opened SquadReturns
  import opened SquadRuntime

  ghost function Ways(backs: seq<SquadReturn>): (w: seq<WayBack>)
    reads backs
    ensures |w| == |backs|
  {
    seq(|backs|, i requires 0 <= i < |backs| reads backs => backs[i].way)
  }

  ghost predicate Apart(backs: seq<SquadReturn>) {
    forall i, j :: 0 <= i < j < |backs| ==> backs[i] != backs[j]
  }

  /** The return pass and then the controller, for one member in its slot. */
  function Finished(c: Tuning, w: WayBack, a: Agent, o: Observation): Agent {
    ChaserTick(c, AfterPass(c, w, a), o)
  }

  /** The return pass over every member. */
  method PassAll(c: nat -> Tuning, members: seq<AgentState>, backs: seq<SquadReturn>, routed: nat -> bool)
    requires Distinct(members) && |backs| == |members| && Apart(backs)
    requires forall m :: m in members ==> m.place.inSquad
    modifies members, backs
    ensures forall i :: 0 <= i < |members| ==>
      && members[i].Snapshot() == AfterPass(c(members[i].netId), old(backs[i].way), old(members[i].Snapshot()))
      && backs[i].way == Pass(old(backs[i].way), old(members[i].Snapshot()), routed(members[i].netId))
  {
    hide AfterPass, Pass;
    for k := 0 to |members|
      invariant forall i :: 0 <= i < k ==>
        && members[i].Snapshot() == AfterPass(c(members[i].netId), old(backs[i].way), old(members[i].Snapshot()))
        && backs[i].way == Pass(old(backs[i].way), old(members[i].Snapshot()), routed(members[i].netId))
      invariant forall i :: k <= i < |members| ==>
        members[i].Snapshot() == old(members[i].Snapshot()) && backs[i].way == old(backs[i].way)
    {
      assert members[k] in members && members[k].Snapshot().place.inSquad;
      backs[k].Update(c(members[k].netId), members[k], routed(members[k].netId));
    }
  }

  /** Every member's own controller. */
  method ControlAll(c: nat -> Tuning, members: seq<AgentState>, seen: nat -> Observation)
    requires Distinct(members)
    modifies members
    ensures forall i :: 0 <= i < |members| ==>
      members[i].Snapshot() == ChaserTick(c(members[i].netId), old(members[i].Snapshot()), seen(members[i].netId))
  {
    hide ChaserTick;
    for k := 0 to |members|
      invariant forall i :: 0 <= i < k ==>
        members[i].Snapshot() == ChaserTick(c(members[i].netId), old(members[i].Snapshot()), seen(members[i].netId))
      invariant forall i :: k <= i < |members| ==> members[i].Snapshot() == old(members[i].Snapshot())
    {
      members[k].Tick(c(members[k].netId), seen(members[k].netId));
    }
  }

  /** What the squad's own tick leaves undone: every member has its slot already. */
  method FinishRound(c: nat -> Tuning, members: seq<AgentState>, backs: seq<SquadReturn>, routed: nat -> bool,
                     seen: nat -> Observation)
    requires Distinct(members) && |backs| == |members| && Apart(backs)
    requires forall m :: m in members ==> m.place.inSquad
    modifies members, backs
    ensures Squad(members) == FinishedAll(c, old(Ways(backs)), old(Squad(members)), seen)
  {
    hide AfterPass, Pass, ChaserTick;
    ghost var ways, squad := Ways(backs), Squad(members);
    PassAll(c, members, backs, routed);
    ControlAll(c, members, seen);
    assert Squad(members) == FinishedAll(c, ways, squad, seen);
  }

  ghost function FinishedAll(c: nat -> Tuning, ways: seq<WayBack>, squad: seq<Member>,
                             seen: nat -> Observation): (r: seq<Member>)
    requires |ways| == |squad|
    ensures |r| == |squad|
  {
    seq(|squad|, i requires 0 <= i < |squad| =>
      squad[i].(agent := Finished(c(squad[i].id), ways[i], squad[i].agent, seen(squad[i].id))))
  }

  /** The input brings everyone the slot its place has, what it sees, and a Return given up
      where the pass gives it up. */
  ghost predicate Brings(sqrt: real -> real, squad: seq<Member>, ways: seq<WayBack>, cursor: Vec3, offsets: seq<Vec3>,
                         heading: (real, real), seen: nat -> Observation, input: RoundInput)
    requires IsSqrt(sqrt) && |ways| == |offsets| == |squad|
  {
    forall i :: 0 <= i < |squad| ==>
      && input(squad[i].id).slot == Slot(sqrt, cursor, offsets[i], heading)
      && input(squad[i].id).o == seen(squad[i].id)
      && input(squad[i].id).givenUp
        == GivesUp(ways[i], Settled(squad[i].agent, Slot(sqrt, cursor, offsets[i], heading)))
  }

  /** The squad's tick and what follows it, from the survivors of the resync on, are one
      round: alerts passed, slots handed out, Returns given up, controllers run. */
  lemma ServerRoundIsRound(sqrt: real -> real, c: nat -> Tuning, before: seq<Member>, ways: seq<WayBack>, cursor: Vec3,
                           offsets: seq<Vec3>, heading: (real, real), seen: nat -> Observation, input: RoundInput)
    requires IsSqrt(sqrt) && |ways| == |offsets| == |Survivors(before, input)|
    requires Brings(sqrt, PassAlert(Survivors(before, input)), ways, cursor, offsets, heading, seen, input)
    ensures Round(c, before, input) ==
      FinishedAll(c, ways, PlacedAll(sqrt, PassAlert(Survivors(before, input)), cursor, offsets, heading), seen)
  {
    var turned := PassAlert(Survivors(before, input));
    hide Slot, ChaserTick, GivesUp, PassAlert, Survivors;
    forall i | 0 <= i < |turned|
      ensures Driven(c(turned[i].id), turned[i], input(turned[i].id)).agent ==
        Finished(c(turned[i].id), ways[i], Settled(turned[i].agent, Slot(sqrt, cursor, offsets[i], heading)),
          seen(turned[i].id))
    {
    }
  }
}
