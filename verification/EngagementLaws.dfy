/** What the chaser tick does, told by what it sees: how long an alert lasts, when a pursuit
    attacks, how a lost target is forgotten, when an agent backs away. Distances, roles and
    counts are spelled out here, not taken from the blocks of the tick. */
module EngagementLaws {
  import opened Geometry
  import opened Engagement

  // ----- the words of the laws ----------------------------------------------------------------

  function Gap2(p: Vec3, q: Vec3): real {
    (q.x - p.x) * (q.x - p.x) + (q.z - p.z) * (q.z - p.z)
  }

  predicate InSquad(a: Agent) {
    a.place.inSquad || a.role == SquadRole
  }

  /** A squad is held by its own leash, 40 m at least while it sees its target; a patrol by its
      own, a locked-on agent by none, and everyone else by the guard's. */
  function LeashFor(c: Tuning, a: Agent, visible: bool): real {
    if InSquad(a) then if visible && 0.0 < c.squad.meters < 40.0 then 40.0 else c.squad.meters
    else if a.role == PatrolRole then c.patrol.meters
    else if a.role == LockTargetRole then 0.0
    else c.guard.meters
  }

  /** No leash, or not past it. */
  predicate Held(c: Tuning, a: Agent, o: Observation, anchor: Vec3) {
    LeashFor(c, a, o.visible) <= 0.0
      || Gap2(o.position, anchor) <= LeashFor(c, a, o.visible) * LeashFor(c, a, o.visible)
  }

  /** Where an agent goes that has nothing left to look for. */
  function Otherwise(a: Agent): State {
    if InSquad(a) then Return
    else if a.role == HunterRole || a.role == LockTargetRole then Seek
    else Idle
  }

  function Ticks(c: Tuning, a: Agent, os: seq<Observation>): Agent {
    if os == [] then a else ChaserTick(c, Ticks(c, a, os[..|os| - 1]), os[|os| - 1])
  }

  lemma HeldIsLeash(c: Tuning, a: Agent, o: Observation, anchor: Vec3)
    ensures Held(c, a, o, anchor) <==> !Beyond(ApplicableLeash(c, BehaviorOf(a), o.visible), o.position, anchor)
  {
    HorizontalIs(o.position, anchor, anchor.x - o.position.x, anchor.z - o.position.z);
    hide Horizontal2;
  }

  lemma SameSpot(p: Vec3)
    ensures Horizontal2(p, p) == 0.0 && Gap2(p, p) == 0.0
  {
  }

  // ----- the phases, with the target in sight ------------------------------------------------------

  /** Nothing is left of an attention but what it sees now. */
  function Sees(s: Sentry, o: Observation): Sentry {
    s.(target := o.targetId, lostTicks := 0, hasAttention := true,
       attention := if o.targetId in o.actors then o.actors[o.targetId] else o.targetPoint)
  }

  lemma SeenInAFight(c: Tuning, a: Agent, o: Observation)
    requires a.sentry.state == Alert || a.sentry.state == Chasing || a.sentry.state == Attack
    requires o.visible && Held(c, a, o, a.place.anchor)
    ensures var p := Perceive(c, a, o);
      && p.sentry == Sees(a.sentry, o) && p.place == a.place && p.role == a.role && p.position == o.position
      && p.post == a.post && p.backing == a.backing && p.burst == RefreshBurst(a.burst, o)
  {
    HeldIsLeash(c, a, o, a.place.anchor);
    hide Beyond, ApplicableLeash, Held, RefreshBurst;
  }

  predicate SameMark(s: Sentry, t: Sentry) {
    && s.target == t.target && s.byDamage == t.byDamage
    && s.hasAttention == t.hasAttention && s.attention == t.attention
  }

  /** A pursuit that sees its target stays one. */
  lemma SeenPursuitStays(c: Tuning, b: Behavior, a: Agent, o: Observation)
    requires o.visible && Pursuing(a.sentry.state)
    ensures var s := Fight(c, b, a, o).sentry;
      Pursuing(s.state) && SameMark(s, a.sentry)
  {
    var ready, leash := DropWindup(a, o), LeashMeters(c, b);
    RunAwayStays(c, leash, ready, o, a.position, a.place.anchor);
    CloseStays(c, leash, ready, o, a.position, a.place.anchor);
    hide RunAway, Close, LeashMeters, EndRetreat, RunsRetreat;
  }

  lemma RunAwayStays(c: Tuning, leash: real, f: Bout, o: Observation, position: Vec3, anchor: Vec3)
    ensures var s := RunAway(c, leash, f, o, position, anchor).sentry;
      SameMark(s, f.sentry) && s.state == (if f.sentry.target in o.actors then Chasing else Search)
  {
    hide UpdateRetreat, EndRetreat, TurnBack;
  }

  lemma CloseStays(c: Tuning, leash: real, f: Bout, o: Observation, position: Vec3, anchor: Vec3)
    ensures var s := Close(c, leash, f, o, position, anchor).sentry;
      SameMark(s, f.sentry) && Pursuing(s.state)
  {
    hide UpdateRetreat, Arm;
  }

  /** What is not a pursuit or a search goes on as it is. */
  lemma NoFight(c: Tuning, b: Behavior, a: Agent, o: Observation)
    requires !Pursuing(a.sentry.state) && a.sentry.state != Search
    ensures Fight(c, b, a, o).sentry == a.sentry
  {
    hide UpdateRetreat, EndRetreat, TurnBack, Arm, LeashMeters;
  }

  lemma SettleAlert(c: Tuning, b: Behavior, a: Agent, o: Observation)
    requires a.sentry.state == Alert && o.visible
    ensures Settle(c, b, a, o) == a.(sentry :=
      if a.sentry.stateTicks + 1 < (if a.sentry.byDamage then c.alertOnDamageTicks else c.alertTicks)
      then a.sentry.(stateTicks := a.sentry.stateTicks + 1)
      else a.sentry.(state := Chasing, stateTicks := 0, lostTicks := 0, bySquad := false))
  {
  }

  lemma SettleNothing(c: Tuning, b: Behavior, a: Agent, o: Observation)
    requires Pursuing(a.sentry.state) || a.sentry.state == Search
    ensures Settle(c, b, a, o) == a
  {
  }

  /** What the fight of a tick starts from. */
  function Settled(c: Tuning, a: Agent, o: Observation): Agent {
    Settle(c, BehaviorOf(a), Perceive(c, Cooled(a), o), o)
  }

  lemma TickIs(c: Tuning, a: Agent, o: Observation)
    requires o.present
    ensures ChaserTick(c, a, o) == WithBout(Settled(c, a, o), Fight(c, BehaviorOf(a), Settled(c, a, o), o))
  {
    hide Perceive, Settle, Fight;
  }

  predicate Watched(c: Tuning, a: Agent, o: Observation, anchor: Vec3) {
    o.present && o.visible && Held(c, a, o, anchor)
  }

  lemma SameWatch(c: Tuning, a: Agent, b: Agent, o: Observation)
    requires a.place == b.place && a.role == b.role
    ensures Watched(c, a, o, a.place.anchor) <==> Watched(c, b, o, b.place.anchor)
  {
  }

  lemma SettledAlert(c: Tuning, a: Agent, o: Observation)
    requires a.sentry.state == Alert && Watched(c, a, o, a.place.anchor)
    ensures var p, s := Settled(c, a, o), Sees(a.sentry, o);
      && p.place == a.place && p.role == a.role
      && p.sentry == (if a.sentry.stateTicks + 1 < (if a.sentry.byDamage then c.alertOnDamageTicks else c.alertTicks)
                      then s.(stateTicks := a.sentry.stateTicks + 1)
                      else s.(state := Chasing, stateTicks := 0, bySquad := false))
  {
    SameWatch(c, a, Cooled(a), o);
    hide Perceive, Held, Settle, RefreshBurst;
    SeenInAFight(c, Cooled(a), o);
    SettleAlert(c, BehaviorOf(a), Perceive(c, Cooled(a), o), o);
  }

  lemma SettledPursuit(c: Tuning, a: Agent, o: Observation)
    requires Pursuing(a.sentry.state) && Watched(c, a, o, a.place.anchor)
    ensures var p := Settled(c, a, o);
      && p.place == a.place && p.role == a.role && p.sentry == Sees(a.sentry, o)
      && p.position == o.position && p.backing == Cooled(a).backing && p.burst == RefreshBurst(a.burst, o)
  {
    SameWatch(c, a, Cooled(a), o);
    hide Perceive, Held, Settle, RefreshBurst;
    SeenInAFight(c, Cooled(a), o);
    SettleNothing(c, BehaviorOf(a), Perceive(c, Cooled(a), o), o);
  }

  // ----- an alert -----------------------------------------------------------------------------------

  /** What a fight carries over from tick to tick. */
  predicate SameFight(p: Agent, a: Agent) {
    p.place == a.place && p.role == a.role && p.sentry.byDamage == a.sentry.byDamage
  }

  /** One tick of an alert with the target in sight. */
  lemma AlertTick(c: Tuning, a: Agent, o: Observation)
    requires a.sentry.state == Alert && Watched(c, a, o, a.place.anchor)
    ensures var p := ChaserTick(c, a, o);
      && SameFight(p, a) && SameMark(p.sentry, Sees(a.sentry, o))
      && if a.sentry.stateTicks + 1 < (if a.sentry.byDamage then c.alertOnDamageTicks else c.alertTicks)
         then p.sentry.state == Alert && p.sentry.stateTicks == a.sentry.stateTicks + 1
         else p.sentry.state == Chasing || p.sentry.state == Attack
  {
    SettledAlert(c, a, o);
    TickIs(c, a, o);
    hide Watched, Fight, Settled, ChaserTick, BehaviorOf;
    var settled := Settled(c, a, o);
    if Pursuing(settled.sentry.state) {
      SeenPursuitStays(c, BehaviorOf(a), settled, o);
    } else {
      NoFight(c, BehaviorOf(a), settled, o);
    }
  }

  /** One tick of a pursuit with the target in sight. */
  lemma PursuitTick(c: Tuning, a: Agent, o: Observation)
    requires Pursuing(a.sentry.state) && Watched(c, a, o, a.place.anchor)
    ensures var p := ChaserTick(c, a, o);
      && SameFight(p, a) && SameMark(p.sentry, Sees(a.sentry, o))
      && (p.sentry.state == Chasing || p.sentry.state == Attack)
  {
    SettledPursuit(c, a, o);
    TickIs(c, a, o);
    hide Watched, Fight, Settled, ChaserTick, BehaviorOf;
    SeenPursuitStays(c, BehaviorOf(a), Settled(c, a, o), o);
  }

  lemma {:induction false} FightSeen(c: Tuning, a: Agent, os: seq<Observation>)
    requires a.sentry.state == Alert || Pursuing(a.sentry.state)
    requires forall o :: o in os ==> Watched(c, a, o, a.place.anchor)
    ensures var p, delay := Ticks(c, a, os), if a.sentry.byDamage then c.alertOnDamageTicks else c.alertTicks;
      && SameFight(p, a) && (os != [] ==> SeesNow(p, os[|os| - 1]))
      && if a.sentry.state == Alert && (os == [] || a.sentry.stateTicks + |os| < delay)
         then p.sentry.state == Alert && p.sentry.stateTicks == a.sentry.stateTicks + |os|
         else p.sentry.state == Chasing || p.sentry.state == Attack
  {
    if os != [] {
      hide Watched, ChaserTick;
      var last := |os| - 1;
      assert os[last] in os && forall o :: o in os[..last] ==> o in os;
      FightSeen(c, a, os[..last]);
      var before := Ticks(c, a, os[..last]);
      SameWatch(c, a, before, os[last]);
      if before.sentry.state == Alert {
        AlertTick(c, before, os[last]);
      } else {
        PursuitTick(c, before, os[last]);
      }
    }
  }

  /** After the target it sees, its attention on where that stands. */
  predicate SeesNow(a: Agent, o: Observation) {
    && a.sentry.target == o.targetId && a.sentry.hasAttention
    && a.sentry.attention == if o.targetId in o.actors then o.actors[o.targetId] else o.targetPoint
  }

  lemma {:induction false} TicksFrom(c: Tuning, a: Agent, os: seq<Observation>)
    requires os != []
    ensures Ticks(c, a, os) == Ticks(c, ChaserTick(c, a, os[0]), os[1..])
  {
    hide ChaserTick;
    var last := |os| - 1;
    if last == 0 {
      assert os[..0] == [] && os[1..] == [];
    } else {
      TicksFrom(c, a, os[..last]);
      assert os[1..][..last - 1] == os[..last][1..];
    }
  }

  // ----- how a fight starts ----------------------------------------------------------------------------

  /** Resting or looking for someone, it takes up what it sees, there and then. */
  lemma SightTick(c: Tuning, a: Agent, o: Observation)
    requires a.sentry.state == Idle || a.sentry.state == Seek
    requires o.present && o.visible && !o.damaged
    ensures var p := ChaserTick(c, a, o);
      && p.place == a.place.(anchor := o.position) && p.role == a.role && !p.sentry.byDamage && SeesNow(p, o)
      && if 1 < c.alertTicks then p.sentry.state == Alert && p.sentry.stateTicks == 1
         else p.sentry.state == Chasing || p.sentry.state == Attack
  {
    SettledSight(c, a, o);
    TickIs(c, a, o);
    hide Fight, Settled, ChaserTick, BehaviorOf;
    var settled := Settled(c, a, o);
    if Pursuing(settled.sentry.state) {
      SeenPursuitStays(c, BehaviorOf(a), settled, o);
    } else {
      NoFight(c, BehaviorOf(a), settled, o);
    }
  }

  lemma SettledSight(c: Tuning, a: Agent, o: Observation)
    requires a.sentry.state == Idle || a.sentry.state == Seek
    requires o.present && o.visible && !o.damaged
    ensures var p, s := Settled(c, a, o), Sees(a.sentry, o).(bySquad := false, byDamage := false);
      && p.place == a.place.(anchor := o.position) && p.role == a.role
      && p.sentry == if 1 < c.alertTicks then s.(state := Alert, stateTicks := 1)
                     else s.(state := Chasing, stateTicks := 0)
  {
    hide Beyond, ApplicableLeash, RefreshBurst;
  }

  /** A hit alerts whoever was not yet in the fight; from a search the old anchor holds. */
  lemma HitTick(c: Tuning, a: Agent, o: Observation)
    requires a.sentry.state == Idle || a.sentry.state == Seek || a.sentry.state == Search
    requires o.present && o.damaged
    requires a.sentry.state == Search ==> Held(c, a, o, a.place.anchor)
    ensures var p := ChaserTick(c, a, o);
      && p.place == (if a.sentry.state == Search then a.place else a.place.(anchor := o.position)) && p.role == a.role
      && (o.visible ==>
            && p.sentry.byDamage && SeesNow(p, o)
            && if 1 < c.alertOnDamageTicks then p.sentry.state == Alert && p.sentry.stateTicks == 1
               else p.sentry.state == Chasing || p.sentry.state == Attack)
      && (!o.visible && c.forgetTicks > 0 ==>
            p.sentry == a.sentry.(state := Alert, stateTicks := 0, lostTicks := 0, bySquad := false,
                                  byDamage := true, hasAttention := true, attention := o.damageSource))
  {
    SettledHit(c, a, o);
    TickIs(c, a, o);
    hide Fight, Settled, ChaserTick, BehaviorOf, Held;
    var settled := Settled(c, a, o);
    if Pursuing(settled.sentry.state) {
      SeenPursuitStays(c, BehaviorOf(a), settled, o);
    } else if settled.sentry.state != Search {
      NoFight(c, BehaviorOf(a), settled, o);
    }
  }

  lemma SettledHit(c: Tuning, a: Agent, o: Observation)
    requires a.sentry.state == Idle || a.sentry.state == Seek || a.sentry.state == Search
    requires o.present && o.damaged
    requires a.sentry.state == Search ==> Held(c, a, o, a.place.anchor)
    ensures var p, s := Settled(c, a, o), Sees(a.sentry, o).(bySquad := false, byDamage := true);
      && p.place == (if a.sentry.state == Search then a.place else a.place.(anchor := o.position)) && p.role == a.role
      && (o.visible ==>
            p.sentry == if 1 < c.alertOnDamageTicks then s.(state := Alert, stateTicks := 1)
                        else s.(state := Chasing, stateTicks := 0))
      && (!o.visible && c.forgetTicks > 0 ==>
            p.sentry == a.sentry.(state := Alert, stateTicks := 0, lostTicks := 0, bySquad := false,
                                  byDamage := true, hasAttention := true, attention := o.damageSource))
      && (!o.visible ==> !Pursuing(p.sentry.state) && p.sentry.state != Search)
  {
    var q := Cooled(a);
    HeldIsLeash(c, q, o, a.place.anchor);
    SameSpot(o.position);
    assert a.sentry.state == Search ==>
      !Beyond(ApplicableLeash(c, BehaviorOf(q), o.visible), o.position, a.place.anchor) by {
      assert Held(c, q, o, a.place.anchor) == Held(c, a, o, a.place.anchor);
    }
    SpotHeld(ApplicableLeash(c, BehaviorOf(q), o.visible), o.position);
    hide Beyond, ApplicableLeash, RefreshBurst, Held, Horizontal2, Gap2;
  }

  lemma SpotHeld(leash: real, p: Vec3)
    ensures !Beyond(leash, p, p)
  {
    SameSpot(p);
    if leash > 0.0 { assert leash * leash > 0.0; }
  }

  /** Engaged by sight, it stays alert for as long as an alert is and then pursues, its target
      in sight and its leash unbroken all the while. */
  lemma SightToPursuit(c: Tuning, a: Agent, os: seq<Observation>)
    requires os != [] && (a.sentry.state == Idle || a.sentry.state == Seek)
    requires os[0].present && os[0].visible && !os[0].damaged
    requires forall o :: o in os[1..] ==> Watched(c, a, o, os[0].position)
    ensures var p := Ticks(c, a, os);
      && p.place.anchor == os[0].position && SeesNow(p, os[|os| - 1])
      && if |os| < c.alertTicks then p.sentry.state == Alert else p.sentry.state == Chasing || p.sentry.state == Attack
  {
    SightTick(c, a, os[0]);
    Onward(c, a, os);
  }

  /** Engaged by a hit, as long as the shorter alert is. */
  lemma HitToPursuit(c: Tuning, a: Agent, os: seq<Observation>)
    requires os != [] && (a.sentry.state == Idle || a.sentry.state == Seek)
    requires os[0].present && os[0].visible && os[0].damaged
    requires forall o :: o in os[1..] ==> Watched(c, a, o, os[0].position)
    ensures var p := Ticks(c, a, os);
      && p.place.anchor == os[0].position && SeesNow(p, os[|os| - 1])
      && if |os| < c.alertOnDamageTicks then p.sentry.state == Alert
         else p.sentry.state == Chasing || p.sentry.state == Attack
  {
    HitTick(c, a, os[0]);
    Onward(c, a, os);
  }

  lemma WatchMoves(c: Tuning, a: Agent, b: Agent, o: Observation, anchor: Vec3)
    requires a.place.inSquad == b.place.inSquad && a.role == b.role
    ensures Watched(c, a, o, anchor) <==> Watched(c, b, o, anchor)
  {
  }

  lemma Onward(c: Tuning, a: Agent, os: seq<Observation>)
    requires os != [] && forall o :: o in os[1..] ==> Watched(c, a, o, os[0].position)
    requires var p := ChaserTick(c, a, os[0]);
      && p.place == a.place.(anchor := os[0].position) && p.role == a.role && SeesNow(p, os[0])
      && ((p.sentry.state == Alert && p.sentry.stateTicks == 1) || Pursuing(p.sentry.state))
    ensures var p, q := ChaserTick(c, a, os[0]), Ticks(c, a, os);
      var delay := if p.sentry.byDamage then c.alertOnDamageTicks else c.alertTicks;
      && q.place == p.place && SeesNow(q, os[|os| - 1])
      && if p.sentry.state == Alert && (|os| == 1 || |os| < delay) then q.sentry.state == Alert
         else Pursuing(q.sentry.state)
  {
    hide ChaserTick, SeesNow, Watched;
    TicksFrom(c, a, os);
    var p := ChaserTick(c, a, os[0]);
    forall o | o in os[1..] ensures Watched(c, p, o, p.place.anchor) {
      WatchMoves(c, a, p, o, os[0].position);
    }
    hide Ticks;
    FightSeen(c, p, os[1..]);
    if |os| > 1 {
      assert os[1..][|os| - 2] == os[|os| - 1];
    }
  }
}
