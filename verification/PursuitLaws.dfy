/** The laws of the pursuit: when it attacks, what it starts, and how a target that is lost
    is looked for and forgotten. */
module PursuitLaws {
  import opened Geometry
  import opened Engagement
  import opened EngagementLaws

  // ----- in sight ---------------------------------------------------------------------------

  /** What is left of a leap, a charge or a wait once this tick is off it. */
  function Less(n: nat): nat {
    if n == 0 then 0 else n - 1
  }

  function LeapLeft(a: Agent, o: Observation): nat {
    if o.leaping then Less(a.burst.leapLeft) else 0
  }

  function ChargeLeft(a: Agent, o: Observation): nat {
    if o.charging then Less(a.burst.chargeLeft) else 0
  }

  /** A wind-up it has not been knocked out of. */
  function WindupLeft(a: Agent, o: Observation): nat {
    if o.knocked then 0 else a.burst.windup
  }

  /** Neither charging nor winding up nor running off. */
  predicate FreeToFight(c: Tuning, a: Agent, o: Observation) {
    ChargeLeft(a, o) == 0 && WindupLeft(a, o) == 0 && !(a.backing.active && c.retreat.style == TurnAndRun)
  }

  lemma FreeFight(c: Tuning, b: Behavior, a: Agent, o: Observation)
    requires o.visible && Pursuing(a.sentry.state)
    requires a.burst.chargeLeft == 0 && (o.knocked || a.burst.windup == 0)
    requires !(a.backing.active && c.retreat.style == TurnAndRun)
    ensures Fight(c, b, a, o) == Close(c, LeashMeters(c, b), Bout(a.sentry, a.backing, a.burst.(windup := 0)), o,
                                       a.position, a.place.anchor)
  {
    hide Close, LeashMeters, EndRetreat, RunAway;
    SightCloses(c, LeashMeters(c, b), Bout(a.sentry, a.backing, a.burst.(windup := 0)), o, a.position, a.place.anchor);
  }

  lemma SightCloses(c: Tuning, leash: real, f: Bout, o: Observation, position: Vec3, anchor: Vec3)
    ensures Close(c, leash, f, o, position, anchor).sentry.state != Search
  {
  }

  /** A pursuit free to fight attacks if and only if it has just wound up, or what it has reaches:
      a leap by how soon it lands, anything else as it is. */
  lemma AttacksInReach(c: Tuning, a: Agent, o: Observation)
    requires Pursuing(a.sentry.state) && Watched(c, a, o, a.place.anchor) && FreeToFight(c, a, o)
    ensures var p := ChaserTick(c, a, o);
      && (p.sentry.state == Attack <==>
            || p.burst.windup > 0
            || (if p.burst.leapLeft > 0 then p.burst.leapLeft <= c.leapLead else o.weaponReaches))
      && SeesNow(p, o) && p.sentry.lostTicks == 0 && p.sentry.stateTicks == a.sentry.stateTicks
  {
    SettledPursuit(c, a, o);
    TickIs(c, a, o);
    hide Watched, Fight, Settled, ChaserTick, BehaviorOf;
    FreeFight(c, BehaviorOf(a), Settled(c, a, o), o);
    hide UpdateRetreat, Arm, LeashMeters;
  }

  /** What it starts: a charge ahead of a leap, neither while it backs away, each only once its
      wait is over and nothing like it is under way. */
  lemma StartsBursts(c: Tuning, a: Agent, o: Observation)
    requires Pursuing(a.sentry.state) && Watched(c, a, o, a.place.anchor) && FreeToFight(c, a, o)
    ensures var p := ChaserTick(c, a, o);
      var may := !p.backing.active && o.targetId in o.actors;
      var charges := may && o.chargeReady && a.burst.chargeCooldown <= 1 && LeapLeft(a, o) == 0;
      var leaps := may && !charges && o.leapAirtime > 0 && a.burst.leapCooldown <= 1 && LeapLeft(a, o) == 0;
      && p.burst.windup == (if charges then c.windupTicks + 1 else 0)
      && p.burst.chargeLeft == 0 && p.burst.chargeCooldown == Less(a.burst.chargeCooldown)
      && p.burst.leapLeft == (if leaps then o.leapAirtime else LeapLeft(a, o))
      && p.burst.leapCooldown == (if leaps then o.leapAirtime + c.leapCooldown else Less(a.burst.leapCooldown))
  {
    SettledPursuit(c, a, o);
    TickIs(c, a, o);
    hide Watched, Fight, Settled, ChaserTick, BehaviorOf;
    FreeFight(c, BehaviorOf(a), Settled(c, a, o), o);
    hide UpdateRetreat, LeashMeters;
  }

  /** A charge runs, and a wind-up is waited out, as attacks; the wind-up's last tick lets the
      charge go, if it knows where to. */
  lemma ChargesAttack(c: Tuning, a: Agent, o: Observation)
    requires Pursuing(a.sentry.state) && Watched(c, a, o, a.place.anchor)
    requires ChargeLeft(a, o) > 0 || WindupLeft(a, o) > 0
    ensures var p := ChaserTick(c, a, o);
      var lets := ChargeLeft(a, o) == 0 && WindupLeft(a, o) == 1 && o.targetId in o.actors;
      && p.sentry.state == Attack && SeesNow(p, o) && p.sentry.lostTicks == 0
      && p.burst.windup == (if ChargeLeft(a, o) > 0 then WindupLeft(a, o) else WindupLeft(a, o) - 1)
      && p.burst.chargeLeft == (if lets then o.chargeRun else ChargeLeft(a, o))
      && p.burst.chargeCooldown == (if lets then o.chargeRun + c.chargeCooldown else Less(a.burst.chargeCooldown))
      && p.burst.leapLeft == LeapLeft(a, o) && p.burst.leapCooldown == Less(a.burst.leapCooldown)
      && !p.backing.active
  {
    SettledPursuit(c, a, o);
    TickIs(c, a, o);
    hide Watched, Settled, ChaserTick, BehaviorOf, LeashMeters, RunAway, Close;
    BurstFight(c, BehaviorOf(a), Settled(c, a, o), o);
    hide Fight;
  }

  lemma BurstFight(c: Tuning, b: Behavior, a: Agent, o: Observation)
    requires o.visible && Pursuing(a.sentry.state) && (a.burst.chargeLeft > 0 || (a.burst.windup > 0 && !o.knocked))
    ensures var f := Fight(c, b, a, o); var w := if o.knocked then 0 else a.burst.windup;
      var lets := a.burst.chargeLeft == 0 && w == 1 && a.sentry.target in o.actors;
      && f.sentry == a.sentry.(lostTicks := 0, state := Attack) && !f.backing.active
      && f.burst == a.burst.(
           windup := if a.burst.chargeLeft > 0 then w else w - 1,
           chargeLeft := if lets then o.chargeRun else a.burst.chargeLeft,
           chargeCooldown := if lets then o.chargeRun + c.chargeCooldown else a.burst.chargeCooldown)
  {
    hide RunAway, Close, LeashMeters;
  }

  /** Running away with its back to the target it is a chase, followed by the target's id. */
  lemma RunsAwayChasing(c: Tuning, a: Agent, o: Observation)
    requires Pursuing(a.sentry.state) && Watched(c, a, o, a.place.anchor)
    requires ChargeLeft(a, o) == 0 && WindupLeft(a, o) == 0 && a.backing.active && c.retreat.style == TurnAndRun
    ensures var p := ChaserTick(c, a, o); p.sentry.state == Chasing && SeesNow(p, o)
  {
    SettledPursuit(c, a, o);
    TickIs(c, a, o);
    hide Watched, Fight, Settled, ChaserTick, BehaviorOf;
    AwayFight(c, BehaviorOf(a), Settled(c, a, o), o);
  }

  lemma AwayFight(c: Tuning, b: Behavior, a: Agent, o: Observation)
    requires o.visible && Pursuing(a.sentry.state) && a.burst.chargeLeft == 0 && (o.knocked || a.burst.windup == 0)
    requires a.backing.active && c.retreat.style == TurnAndRun
    ensures var s := Fight(c, b, a, o).sentry; s.state == Chasing && SameMark(s, a.sentry)
  {
    hide UpdateRetreat, EndRetreat, TurnBack, LeashMeters, Close;
  }

  // ----- out of sight ------------------------------------------------------------------------------

  /** Held, and nothing in sight. */
  predicate Blind(c: Tuning, a: Agent, o: Observation) {
    o.present && !o.visible && Held(c, a, o, a.place.anchor)
  }

  /** It has given the target up, and gone on to what it does otherwise. */
  predicate GivenUp(p: Agent, a: Agent) {
    && p.sentry == a.sentry.(state := Otherwise(a), target := 0, hasAttention := false, stateTicks := 0,
                             lostTicks := 0, bySquad := false, attention := p.sentry.attention)
    && p.place == a.place && p.role == a.role
  }

  /** Where a hit it did not see came from is where it looks next. */
  function Turned(s: Sentry, o: Observation): Sentry {
    if o.damaged then s.(hasAttention := true, attention := o.damageSource) else s
  }

  lemma BlindInAFight(c: Tuning, a: Agent, o: Observation)
    requires a.sentry.state == Alert || Pursuing(a.sentry.state) || (a.sentry.state == Search && !o.damaged)
    requires Blind(c, a, o)
    ensures var p := Perceive(c, Cooled(a), o);
      && p.sentry == Turned(a.sentry, o).(lostTicks := a.sentry.lostTicks + 1)
      && p.place == a.place && p.role == a.role && p.backing == Cooled(a).backing
  {
    HeldIsLeash(c, Cooled(a), o, a.place.anchor);
    assert Held(c, Cooled(a), o, a.place.anchor) == Held(c, a, o, a.place.anchor);
    hide Beyond, ApplicableLeash, Held, RefreshBurst;
  }

  lemma OtherwiseIs(a: Agent)
    ensures Forgotten(BehaviorOf(a)) == Otherwise(a)
  {
  }

  /** An alert that has lost its target waits until it forgets it. */
  lemma BlindAlertTick(c: Tuning, a: Agent, o: Observation)
    requires a.sentry.state == Alert && Blind(c, a, o)
    ensures var p := ChaserTick(c, a, o);
      && p.place == a.place && p.role == a.role
      && if a.sentry.lostTicks + 1 < c.forgetTicks
         then p.sentry == Turned(a.sentry, o).(lostTicks := a.sentry.lostTicks + 1)
         else GivenUp(p, a)
  {
    OtherwiseIs(a);
    TickIs(c, a, o);
    BlindInAFight(c, a, o);
    hide Perceive, Held, BehaviorOf, Otherwise, Forgotten, ChaserTick, Fight;
    NoFight(c, BehaviorOf(a), Settled(c, a, o), o);
  }

  /** A pursuit that loses its target starts looking for it where it was, on that same tick. */
  lemma LostTick(c: Tuning, a: Agent, o: Observation)
    requires Pursuing(a.sentry.state) && Blind(c, a, o) && !(a.backing.active && c.retreat.style == TurnAndRun)
    ensures var p, s := ChaserTick(c, a, o), Turned(a.sentry, o);
      && p.place == a.place && p.role == a.role
      && if c.forgetTicks > 0 && s.hasAttention
         then p.sentry == s.(state := Search, stateTicks := 0, lostTicks := 0, bySquad := false)
         else GivenUp(p, a)
  {
    OtherwiseIs(a);
    TickIs(c, a, o);
    BlindInAFight(c, a, o);
    SettleNothing(c, BehaviorOf(a), Perceive(c, Cooled(a), o), o);
    hide Perceive, Held, BehaviorOf, Otherwise, Forgotten, ChaserTick, Settle, LeashMeters, EndRetreat, Close, RunAway;
  }

  /** A search goes on until it forgets. */
  lemma SearchTick(c: Tuning, a: Agent, o: Observation)
    requires a.sentry.state == Search && Blind(c, a, o) && !o.damaged
    ensures var p := ChaserTick(c, a, o);
      && p.place == a.place && p.role == a.role
      && if a.sentry.lostTicks + 1 < c.forgetTicks && a.sentry.hasAttention
         then p.sentry == a.sentry.(lostTicks := a.sentry.lostTicks + 1)
         else GivenUp(p, a)
  {
    OtherwiseIs(a);
    TickIs(c, a, o);
    BlindInAFight(c, a, o);
    SettleNothing(c, BehaviorOf(a), Perceive(c, Cooled(a), o), o);
    hide Perceive, Held, BehaviorOf, Otherwise, Forgotten, ChaserTick, Settle, LeashMeters, EndRetreat, Close, RunAway;
  }

  /** Its target out of sight and nobody shooting at it, a pursuit becomes a search at once, for as
      many ticks as it takes to forget; on the next one it has given the target up. */
  lemma {:induction false} SearchLasts(c: Tuning, a: Agent, os: seq<Observation>)
    requires Pursuing(a.sentry.state) && a.sentry.hasAttention && !(a.backing.active && c.retreat.style == TurnAndRun)
    requires 0 < |os| <= c.forgetTicks + 1
    requires forall o :: o in os ==> Blind(c, a, o) && !o.damaged
    ensures var p := Ticks(c, a, os);
      && p.place == a.place && p.role == a.role
      && if |os| <= c.forgetTicks
         then p.sentry == a.sentry.(state := Search, stateTicks := 0, lostTicks := |os| - 1, bySquad := false)
         else GivenUp(p, a)
  {
    hide Blind, ChaserTick;
    var last := |os| - 1;
    assert os[last] in os && forall o :: o in os[..last] ==> o in os;
    if last == 0 {
      LostTick(c, a, os[0]);
      assert os[..0] == [];
    } else {
      SearchLasts(c, a, os[..last]);
      var before := Ticks(c, a, os[..last]);
      SameBlind(c, a, before, os[last]);
      SearchTick(c, before, os[last]);
    }
  }

  lemma SameBlind(c: Tuning, a: Agent, b: Agent, o: Observation)
    requires a.place == b.place && a.role == b.role
    ensures Blind(c, a, o) <==> Blind(c, b, o)
  {
  }

  /** An alert whose target is lost before it runs out never pursues: it waits out what it takes
      to forget, and gives the target up. */
  lemma {:induction false} AlertForgets(c: Tuning, a: Agent, os: seq<Observation>)
    requires a.sentry.state == Alert && 0 < |os| && a.sentry.lostTicks < c.forgetTicks
    requires a.sentry.lostTicks + |os| <= c.forgetTicks
    requires forall o :: o in os ==> Blind(c, a, o)
    ensures var p := Ticks(c, a, os);
      && p.place == a.place && p.role == a.role
      && if a.sentry.lostTicks + |os| < c.forgetTicks
         then p.sentry.state == Alert && p.sentry.lostTicks == a.sentry.lostTicks + |os|
              && p.sentry.stateTicks == a.sentry.stateTicks && p.sentry.byDamage == a.sentry.byDamage
         else p.sentry.state == Otherwise(a) && p.sentry.target == 0 && !p.sentry.hasAttention
  {
    hide Blind, ChaserTick;
    var last := |os| - 1;
    assert os[last] in os && forall o :: o in os[..last] ==> o in os;
    if last > 0 {
      AlertForgets(c, a, os[..last]);
    } else {
      assert os[..0] == [];
    }
    var before := Ticks(c, a, os[..last]);
    SameBlind(c, a, before, os[last]);
    BlindAlertTick(c, before, os[last]);
  }

  /** A search that sees its target again pursues it. */
  lemma FoundTick(c: Tuning, a: Agent, o: Observation)
    requires a.sentry.state == Search && Watched(c, a, o, a.place.anchor) && !o.damaged
    ensures var p := ChaserTick(c, a, o);
      && p.sentry == Sees(a.sentry, o).(state := Chasing, stateTicks := 0, bySquad := false)
      && p.place == a.place && p.role == a.role
  {
    HeldIsLeash(c, Cooled(a), o, a.place.anchor);
    assert Held(c, Cooled(a), o, a.place.anchor) == Held(c, a, o, a.place.anchor);
    hide Beyond, ApplicableLeash, Held, RefreshBurst, LeashMeters, EndRetreat, Close, RunAway;
  }

  // ----- at rest -----------------------------------------------------------------------------------

  /** Undisturbed, a hunter and a locked-on agent go looking, everyone else rests, and a guard that
      has no post takes up the place it is at. */
  lemma RestTick(c: Tuning, a: Agent, o: Observation)
    requires a.sentry.state == Idle || a.sentry.state == Seek
    requires o.present && !o.visible && !o.damaged
    ensures var p := ChaserTick(c, a, o);
      var looks := !InSquad(a) && (a.role == HunterRole || a.role == LockTargetRole);
      var guards := !InSquad(a) && a.role != PatrolRole && a.role != HunterRole && a.role != LockTargetRole;
      && p.sentry.state == (if looks then Seek else a.sentry.state)
      && p.sentry.target == a.sentry.target && p.place == a.place && p.role == a.role && p.position == o.position
      && p.post == if guards && a.sentry.state == Idle && a.post == NoPost then PostAt(o.position) else a.post
  {
    TickIs(c, a, o);
    SettledRest(c, a, o);
    hide Fight, Settled, ChaserTick, BehaviorOf;
    NoFight(c, BehaviorOf(a), Settled(c, a, o), o);
  }

  lemma SettledRest(c: Tuning, a: Agent, o: Observation)
    requires a.sentry.state == Idle || a.sentry.state == Seek
    requires o.present && !o.visible && !o.damaged
    ensures var p := Settled(c, a, o);
      var looks := !InSquad(a) && (a.role == HunterRole || a.role == LockTargetRole);
      var guards := !InSquad(a) && a.role != PatrolRole && a.role != HunterRole && a.role != LockTargetRole;
      && p.sentry.state == (if looks then Seek else a.sentry.state)
      && p.sentry.target == a.sentry.target && p.place == a.place && p.role == a.role && p.position == o.position
      && p.post == if guards && a.sentry.state == Idle && a.post == NoPost then PostAt(o.position) else a.post
  {
    RestSeen(c, a, o);
    hide Perceive;
  }

  lemma RestSeen(c: Tuning, a: Agent, o: Observation)
    requires a.sentry.state == Idle || a.sentry.state == Seek
    requires o.present && !o.visible && !o.damaged
    ensures var p := Perceive(c, Cooled(a), o);
      && p.sentry == a.sentry.(lostTicks := a.sentry.lostTicks + 1)
      && p.place == a.place && p.role == a.role && p.position == o.position && p.post == a.post
  {
    hide Beyond, ApplicableLeash, RefreshBurst;
  }

  /** A post once taken up is kept, and none is taken up with a target in sight. */
  lemma PostStays(c: Tuning, a: Agent, o: Observation)
    requires o.present && (o.visible || a.post != NoPost)
    ensures ChaserTick(c, a, o).post == a.post
  {
    TickIs(c, a, o);
    assert Perceive(c, Cooled(a), o).post == a.post by {
      hide Beyond, ApplicableLeash, RefreshBurst;
    }
    hide Perceive, Fight, WalkHome, ChaserTick;
  }

  /** Past the leash the target is dropped whatever it sees. Where the walk home is over at once it
      rests, or takes up afresh what it sees, by then of no target until the next tick. */
  lemma BreakTick(c: Tuning, a: Agent, o: Observation)
    requires Engaged(a.sentry.state) && o.present && !Held(c, a, o, a.place.anchor)
    ensures var p := ChaserTick(c, a, o);
      && p.sentry.target == 0 && !p.sentry.hasAttention && p.position == o.position
      && (p.sentry.state == Return || (!o.visible && !Engaged(p.sentry.state)) ==> p.place == a.place)
      && (p.sentry.state != Return && o.visible ==>
            (p.sentry.state == Alert || Pursuing(p.sentry.state)) && p.place == a.place.(anchor := o.position))
      && (p.sentry.state != Return && !o.visible ==> p.sentry.state == Idle || p.sentry.state == Seek)
  {
    SettledBroken(c, a, o);
    TickIs(c, a, o);
    hide Fight, Settled, ChaserTick, BehaviorOf, Held;
    var settled := Settled(c, a, o);
    if Pursuing(settled.sentry.state) {
      SeenPursuitStays(c, BehaviorOf(a), settled, o);
    } else {
      NoFight(c, BehaviorOf(a), settled, o);
    }
  }

  lemma SettledBroken(c: Tuning, a: Agent, o: Observation)
    requires Engaged(a.sentry.state) && o.present && !Held(c, a, o, a.place.anchor)
    ensures var p := Settled(c, a, o); var s := p.sentry;
      && p.position == o.position && s.target == 0 && !s.hasAttention
      && p.place == (if s.state != Return && o.visible then a.place.(anchor := o.position) else a.place)
      && (s.state != Return ==>
            if o.visible then s.state == Alert || s.state == Chasing else s.state == Idle || s.state == Seek)
  {
    BrokenOff(c, a, o);
    hide Perceive, Held, BackHome;
  }

  lemma BrokenOff(c: Tuning, a: Agent, o: Observation)
    requires Engaged(a.sentry.state) && o.present && !Held(c, a, o, a.place.anchor)
    ensures var p := Perceive(c, Cooled(a), o);
      && p.sentry.state == Return && p.place == a.place && p.position == o.position
      && p.sentry.target == 0 && !p.sentry.hasAttention
  {
    HeldIsLeash(c, Cooled(a), o, a.place.anchor);
    assert Held(c, Cooled(a), o, a.place.anchor) == Held(c, a, o, a.place.anchor);
    hide Beyond, ApplicableLeash, Held, RefreshBurst;
  }

  /** On its way home it heeds nothing: a target is only noted, and a hit not even that. */
  lemma ReturnTick(c: Tuning, a: Agent, o: Observation)
    requires a.sentry.state == Return && o.present && !BackHome(c, BehaviorOf(a), o.position, a.place)
    ensures var p := ChaserTick(c, a, o);
      && p.sentry == (if o.visible then Sees(a.sentry, o) else a.sentry.(lostTicks := a.sentry.lostTicks + 1))
      && p.place == a.place && p.role == a.role && p.position == o.position && p.post == a.post
  {
    TickIs(c, a, o);
    ReturnSeen(c, a, o);
    assert BehaviorOf(Perceive(c, Cooled(a), o)) == BehaviorOf(a);
    hide Perceive, BackHome, Fight, ChaserTick, BehaviorOf;
    NoFight(c, BehaviorOf(a), Settled(c, a, o), o);
  }

  lemma ReturnSeen(c: Tuning, a: Agent, o: Observation)
    requires a.sentry.state == Return && o.present
    ensures var p := Perceive(c, Cooled(a), o);
      && p.sentry == (if o.visible then Sees(a.sentry, o) else a.sentry.(lostTicks := a.sentry.lostTicks + 1))
      && p.place == a.place && p.role == a.role && p.position == o.position && p.post == a.post
  {
    hide Beyond, ApplicableLeash, RefreshBurst;
  }

  /** Home: in a squad its slot or its anchor will do, outside one only the anchor. */
  lemma HomeIs(c: Tuning, a: Agent, position: Vec3)
    requires c.slotRadius >= 0.0 && c.squad.resume >= 0.0
    ensures BackHome(c, BehaviorOf(a), position, a.place) <==>
      if InSquad(a) then
        || Gap2(position, a.place.slot) <= c.slotRadius * c.slotRadius
        || Gap2(position, a.place.anchor) <= c.squad.resume * c.squad.resume
      else
        var resume := if a.role == PatrolRole then c.patrol.resume else c.guard.resume;
        Gap2(position, a.place.anchor) <= if resume > 1.0 then resume * resume else 1.0
  {
    HorizontalIs(position, a.place.anchor, a.place.anchor.x - position.x, a.place.anchor.z - position.z);
    HorizontalIs(position, a.place.slot, a.place.slot.x - position.x, a.place.slot.z - position.z);
    hide Horizontal2;
  }
}
