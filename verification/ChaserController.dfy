/** The chaser controller as it runs: one agent's record, updated in place, block by
    block. Each block is tied to the phase of `Engagement` it carries out. */
module ChaserController {
  import opened Geometry
  import opened Engagement
  import opened AgentEvents

  class AgentState {
    const netId: nat
    var sentry: Sentry
    var position: Vec3
    var place: Place
    var role: Role
    var post: Post
    var backing: Backing
    var burst: Burst

    constructor (netId: nat, role: Role, position: Vec3)
      ensures this.netId == netId && this.role == role && this.position == position
      ensures var origin := Vec3(0.0, 0.0, 0.0);
        && sentry == Sentry(Idle, 0, 0, 0, false, origin, false, false)
        && place == Place(origin, origin, false) && post == NoPost
        && backing == Backing(false, false, 0, 0, 0, origin, 0, 0) && burst == Burst(0, 0, 0, 0, 0)
    {
      this.netId := netId;
      this.role := role;
      this.position := position;
      var origin := Vec3(0.0, 0.0, 0.0);
      sentry := Sentry(Idle, 0, 0, 0, false, origin, false, false);
      place := Place(origin, origin, false);
      post := NoPost;
      backing := Backing(false, false, 0, 0, 0, origin, 0, 0);
      burst := Burst(0, 0, 0, 0, 0);
    }

    function Snapshot(): Agent
      reads this
    {
      Agent(sentry, position, place, role, post, backing, burst)
    }

    function Fighting(): Bout
      reads this
    {
      Bout(sentry, backing, burst)
    }

    method TransitionTo(state: State)
      modifies this`sentry
      ensures sentry == Engagement.TransitionTo(old(sentry), state)
    {
      if sentry.state != state {
        sentry := sentry.(state := state, stateTicks := 0, lostTicks := 0, bySquad := false);
      }
    }

    /** A squad-mate's alert, taken where the agent stands. */
    method AlertBySquad(source: Sentry)
      modifies this`sentry, this`place
      ensures Snapshot() == AlertedBySquad(old(Snapshot()), source.attention, source.byDamage)
    {
      place := place.(anchor := position);
      TransitionTo(Alert);
      sentry := sentry.(bySquad := true, byDamage := source.byDamage,
                        attention := source.attention, hasAttention := true);
    }

    /** An order to switch: refused, or everything it was after is let go at once. */
    method SetBehavior(c: Tuning, role: Role, post: Post) returns (accepted: bool)
      modifies this
      ensures accepted == MaySwitch(old(Snapshot()), role, post)
      ensures Snapshot() == Next(c, old(Snapshot()), Commanded(role, post))
      ensures accepted ==> sentry.state == Idle && place == old(place) && backing == old(backing) && burst == old(burst)
    {
      accepted := !(role == NoRole || role == SentryRole || this.role == SentryRole || this.role == NoRole ||
                    place.inSquad || role == SquadRole || (role != GuardRole && post != NoPost));
      if accepted {
        sentry := sentry.(target := 0, hasAttention := false, byDamage := false);
        TransitionTo(Idle);
        ApplyBehavior(role, post);
      }
    }

    /** A behaviour given without asking: the fight, if any, goes on. */
    method ApplyBehavior(role: Role, post: Post)
      modifies this`role, this`post
      ensures Snapshot() == AgentEvents.ApplyBehavior(old(Snapshot()), role, post)
    {
      if this.role == GuardRole {
        this.post := NoPost;
      }
      this.role := role;
      if role == GuardRole {
        this.post := NoPost;
      }
      if post != NoPost {
        this.post := post;
      }
    }

    method Perceive(c: Tuning, b: Behavior, o: Observation)
      requires b == BehaviorOf(Snapshot())
      modifies this
      ensures Snapshot() == Engagement.Perceive(c, old(Snapshot()), o)
    {
      hide Beyond, ApplicableLeash;
      position := o.position;
      RefreshCountdowns(o);
      if o.visible {
        sentry := sentry.(target := o.targetId, lostTicks := 0, hasAttention := true);
        sentry := sentry.(attention := if o.targetId in o.actors then o.actors[o.targetId] else o.targetPoint);
      } else {
        sentry := sentry.(lostTicks := sentry.lostTicks + 1);
      }
      if o.damaged {
        TakeHit(o);
      }
      var leash := ApplicableLeash(c, b, o.visible);
      if Beyond(leash, position, place.anchor) && Engaged(sentry.state) {
        sentry := sentry.(target := 0, hasAttention := false);
        TransitionTo(Return);
      }
    }

    method RefreshCountdowns(o: Observation)
      modifies this`burst
      ensures burst == RefreshBurst(old(burst), o)
    {
      if burst.leapLeft > 0 {
        burst := burst.(leapLeft := burst.leapLeft - 1);
        if !o.leaping { burst := burst.(leapLeft := 0); }
      }
      if burst.leapCooldown > 0 { burst := burst.(leapCooldown := burst.leapCooldown - 1); }
      if burst.chargeLeft > 0 {
        burst := burst.(chargeLeft := burst.chargeLeft - 1);
        if !o.charging { burst := burst.(chargeLeft := 0); }
      }
      if burst.chargeCooldown > 0 { burst := burst.(chargeCooldown := burst.chargeCooldown - 1); }
    }

    method TakeHit(o: Observation)
      requires o.damaged && position == o.position
      modifies this`sentry, this`place
      ensures sentry == Hit(old(sentry), o)
      ensures place == old(place).(anchor := HitAnchor(old(sentry), old(place.anchor), o))
    {
      var state := sentry.state;
      if state == Idle || state == Search || state == Seek {
        if state != Search {
          place := place.(anchor := position);
        }
        TransitionTo(Alert);
        sentry := sentry.(byDamage := true);
      }
      if sentry.state == Return {
        // It only turns its head.
      } else if !o.visible {
        sentry := sentry.(attention := o.damageSource, hasAttention := true);
      }
    }

    method Settle(c: Tuning, b: Behavior, o: Observation)
      modifies this
      ensures Snapshot() == Engagement.Settle(c, b, old(Snapshot()), o)
    {
      hide BackHome, Engagement.Alerted, Engagement.TransitionTo;
      ghost var before := Snapshot();
      ComeHome(c, b);
      Rouse(b, o);
      WaitAlert(c, b, o);
      assert Snapshot() == Engagement.Settle(c, b, before, o);
    }

    method ComeHome(c: Tuning, b: Behavior)
      modifies this`sentry
      ensures sentry == WalkHome(c, b, old(Snapshot()))
    {
      hide BackHome;
      if sentry.state == Return {
        if BackHome(c, b, position, place) { TransitionTo(Idle); }
      }
    }

    /** Idle or looking for someone, it takes up what it sees, or goes on. */
    method Rouse(b: Behavior, o: Observation)
      modifies this`sentry, this`place, this`post
      ensures var acquires := Acquires(old(sentry), o);
        && sentry == (if acquires then Engagement.Acquire(old(sentry)) else Rest(b, old(sentry)))
        && place == (if acquires then old(place).(anchor := position) else old(place))
        && post == if b == Guard && old(sentry).state == Idle && !acquires && old(post) == NoPost
          then PostAt(position) else old(post)
    {
      if sentry.state == Idle {
        if o.visible {
          Acquire();
        } else {
          match b {
            case Hunter => TransitionTo(Seek);
            case LockTarget => TransitionTo(Seek);
            case Guard => if post == NoPost { post := PostAt(position); }
            case _ =>
          }
        }
      }
      if sentry.state == Seek && o.visible {
        Acquire();
      }
    }

    method WaitAlert(c: Tuning, b: Behavior, o: Observation)
      modifies this`sentry
      ensures sentry == Alerted(c, b, old(sentry), o)
    {
      if sentry.state == Alert {
        if o.visible {
          sentry := sentry.(stateTicks := sentry.stateTicks + 1);
          if sentry.stateTicks >= (if sentry.byDamage then c.alertOnDamageTicks else c.alertTicks) {
            TransitionTo(Chasing);
          }
        } else if sentry.lostTicks >= c.forgetTicks {
          Forget(b);
        }
      }
    }

    method Acquire()
      modifies this`sentry, this`place
      ensures sentry == Engagement.Acquire(old(sentry)) && place == old(place).(anchor := position)
    {
      place := place.(anchor := position);
      sentry := sentry.(byDamage := false);
      TransitionTo(Alert);
    }

    method Forget(b: Behavior)
      modifies this`sentry
      ensures sentry == Engagement.Forget(b, old(sentry))
    {
      sentry := sentry.(target := 0, hasAttention := false);
      TransitionTo(Forgotten(b));
    }

    method EndRetreat(r: Retreat)
      modifies this`backing
      ensures backing == Engagement.EndRetreat(r, old(backing))
    {
      backing := backing.(active := false, turning := false, turnTicks := 0, ticks := 0);
      backing := backing.(windowTicks := 0, cooldown := r.cooldownTicks);
    }

    method FinishMovingAway(r: Retreat)
      modifies this`backing
      ensures backing == Engagement.FinishMovingAway(r, old(backing))
    {
      if r.style == TurnAndRun {
        backing := backing.(turning := true, turnTicks := 0);
        return;
      }
      EndRetreat(r);
    }

    method ChooseHeading(o: Observation) returns (heading: nat)
      ensures heading == Engagement.ChooseHeading(o, backing.heading)
    {
      heading := HEADINGS;
      if backing.heading < HEADINGS && ClearAt(o, backing.heading) {
        heading := backing.heading;
      } else {
        for index := 0 to HEADINGS
          invariant heading == HEADINGS && FirstClear(o, 0) == FirstClear(o, index)
        {
          if ClearAt(o, index) {
            return index;
          }
        }
      }
    }

    method UpdateRetreat(c: Tuning, leash: real, o: Observation, from: Vec3)
      modifies this`backing
      ensures backing == Engagement.UpdateRetreat(c, leash, old(backing), burst, o, position, place.anchor, from)
    {
      hide CloserThan, Stalled, MovedAwayEnough, Engagement.ChooseHeading;
      var r := c.retreat;
      if r.trigger <= 0.0 {
        return;
      }
      if burst.leapLeft > 0 || burst.windup > 0 || burst.chargeLeft > 0 {
        if backing.active { EndRetreat(r); }
        return;
      }
      if !backing.active {
        if backing.cooldown > 0 || !CloserThan(position, from, r.trigger) {
          return;
        }
        backing := StartRetreat(backing, position);
      }
      if backing.turning {
        return;
      }
      var done := MovedAwayEnough(r, leash, backing, position, place.anchor, from);
      if !done && backing.windowTicks >= STALL_WINDOW {
        done := Stalled(c, backing, position);
        backing := backing.(windowStart := position, windowTicks := 0);
      }
      if done {
        FinishMovingAway(r);
        return;
      }
      var heading := ChooseHeading(o);
      if heading == HEADINGS {
        FinishMovingAway(r);
        return;
      }
      backing := backing.(heading := heading);
      backing := backing.(ticks := backing.ticks + 1);
      backing := backing.(windowTicks := backing.windowTicks + 1);
    }

    method RunAway(c: Tuning, leash: real, o: Observation)
      modifies this`sentry, this`backing
      ensures Fighting() == Engagement.RunAway(c, leash, old(Fighting()), o, position, place.anchor)
    {
      hide Engagement.UpdateRetreat, Engagement.EndRetreat;
      sentry := sentry.(lostTicks := 0);
      if sentry.target !in o.actors {
        EndRetreat(c.retreat);
        TransitionTo(Search);
      } else {
        var from := if o.visible then o.targetPoint else o.actors[sentry.target];
        UpdateRetreat(c, leash, o, from);
        if backing.active && backing.turning {
          backing := backing.(turnTicks := backing.turnTicks + 1);
          if o.visible || backing.turnTicks >= TURN_LIMIT {
            EndRetreat(c.retreat);
          }
        }
        sentry := sentry.(state := Chasing);
      }
    }

    /** A charge is tried ahead of a leap; neither starts while it backs away. */
    method StartBurst(c: Tuning, o: Observation)
      modifies this`burst
      ensures burst == Arm(c, backing, old(burst), sentry.target, o)
    {
      if backing.active || sentry.target !in o.actors {
      } else if o.chargeReady && burst.chargeCooldown == 0 && burst.windup == 0
                && burst.chargeLeft == 0 && burst.leapLeft == 0 {
        burst := burst.(windup := c.windupTicks + 1);
      } else if o.leapAirtime > 0 && burst.leapLeft == 0 && burst.leapCooldown == 0 {
        burst := burst.(leapLeft := o.leapAirtime, leapCooldown := o.leapAirtime + c.leapCooldown);
      }
    }

    method Close(c: Tuning, leash: real, o: Observation)
      modifies this`sentry, this`backing, this`burst
      ensures Fighting() == Engagement.Close(c, leash, old(Fighting()), o, position, place.anchor)
    {
      hide Engagement.UpdateRetreat, Arm;
      sentry := sentry.(lostTicks := 0);
      UpdateRetreat(c, leash, o, o.targetPoint);
      StartBurst(c, o);
      var reaches := if burst.leapLeft > 0 then burst.leapLeft <= c.leapLead else o.weaponReaches;
      sentry := sentry.(state := if reaches || burst.windup > 0 then Attack else Chasing);
    }

    method WindUp(c: Tuning, o: Observation)
      requires burst.windup > 0
      modifies this`sentry, this`burst
      ensures Fighting() == Engagement.WindUp(c, old(Fighting()), o)
    {
      sentry := sentry.(lostTicks := 0, state := Attack);
      burst := burst.(windup := burst.windup - 1);
      if burst.windup == 0 && sentry.target in o.actors {
        burst := burst.(chargeCooldown := c.chargeCooldown);
        if o.chargeRun > 0 {
          burst := burst.(chargeLeft := o.chargeRun, chargeCooldown := o.chargeRun + c.chargeCooldown);
        }
      }
    }

    /** Returns whether it ran the retreat. */
    method Pursue(c: Tuning, leash: real, o: Observation) returns (retreatRan: bool)
      modifies this`sentry, this`backing, this`burst
      ensures Fighting() == Engagement.Pursue(c, leash, old(Fighting()), o, position, place.anchor)
      ensures retreatRan == RunsRetreat(c, old(Fighting()), o)
    {
      hide Engagement.RunAway, Engagement.Close, Engagement.WindUp;
      retreatRan := false;
      if !Pursuing(sentry.state) {
      } else if o.visible && burst.chargeLeft > 0 {
        sentry := sentry.(lostTicks := 0, state := Attack);
      } else if o.visible && burst.windup > 0 {
        WindUp(c, o);
      } else if backing.active && c.retreat.style == TurnAndRun {
        retreatRan := true;
        RunAway(c, leash, o);
      } else if o.visible {
        retreatRan := true;
        Close(c, leash, o);
      } else {
        TransitionTo(Search);
      }
    }

    method Fight(c: Tuning, b: Behavior, o: Observation)
      modifies this`sentry, this`backing, this`burst
      ensures Fighting() == Engagement.Fight(c, b, old(Snapshot()), o)
    {
      hide Engagement.Pursue, LeashMeters, Engagement.EndRetreat, RunsRetreat, Forgotten;
      if burst.windup > 0 && (!Pursuing(sentry.state) || !o.visible || o.knocked) {
        burst := burst.(windup := 0);
      }
      assert Fighting() == DropWindup(old(Snapshot()), o);
      var retreatRan := Pursue(c, LeashMeters(c, b), o);
      if sentry.state == Search {
        if o.visible {
          TransitionTo(Chasing);
        } else if sentry.lostTicks >= c.forgetTicks || !sentry.hasAttention {
          Forget(b);
        }
      }
      if backing.active && !retreatRan {
        EndRetreat(c.retreat);
      }
    }

    /** One controller tick. */
    method Tick(c: Tuning, o: Observation)
      modifies this
      ensures Snapshot() == ChaserTick(c, old(Snapshot()), o)
    {
      hide Engagement.Perceive, Engagement.Settle, Engagement.Fight;
      if backing.cooldown > 0 {
        backing := backing.(cooldown := backing.cooldown - 1);
      }
      if !o.present {
        return;
      }
      var b := BehaviorOf(Snapshot());
      ghost var before := Snapshot();
      Perceive(c, b, o);
      assert BehaviorOf(before) == b;
      Settle(c, b, o);
      ghost var settled := Snapshot();
      Fight(c, b, o);
      assert Snapshot() == WithBout(settled, Engagement.Fight(c, b, settled, o));
    }
  }
}
