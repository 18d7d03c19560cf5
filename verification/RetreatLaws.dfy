/** The laws of backing away from a target that has come too close: when it starts, which way it
    goes, and when it ends. */
module RetreatLaws {
  import opened Geometry
  import opened Engagement
  import opened EngagementLaws
  import opened PursuitLaws

  predicate Near(p: Vec3, q: Vec3, r: real) {
    r > 0.0 && Gap2(p, q) < r * r
  }

  lemma NearIs(p: Vec3, q: Vec3, r: real)
    ensures Near(p, q, r) <==> CloserThan(p, q, r)
  {
    HorizontalIs(p, q, q.x - p.x, q.z - p.z);
    hide Horizontal2;
  }

  /** Backing off stops half a metre short of the leash, sight or no sight. */
  predicate AtLeash(c: Tuning, a: Agent, position: Vec3) {
    LeashFor(c, a, false) > 0.0 && !Near(position, a.place.anchor, LeashFor(c, a, false) - 0.5)
  }

  /** A window of 15 ticks that made good less than three tenths of what it asked for. */
  predicate GoesNowhere(c: Tuning, k: Backing, position: Vec3) {
    k.windowTicks >= 15
    && Near(position, k.windowStart, 0.3 * (c.stepMeters * c.retreat.inputMagnitude * k.windowTicks as real))
  }

  predicate ClearWay(o: Observation, heading: nat) {
    heading < 5 && heading < |o.clear| && o.clear[heading]
  }

  predicate Cornered(o: Observation) {
    forall h: nat | h < 5 :: !ClearWay(o, h)
  }

  /** The way it was going if that is clear, else the first clear one. */
  predicate GoesWay(o: Observation, before: nat, heading: nat) {
    && ClearWay(o, heading)
    && (if ClearWay(o, before) then heading == before else forall h: nat | h < heading :: !ClearWay(o, h))
  }

  lemma {:induction false} FirstClearIs(o: Observation, from: nat)
    requires from <= 5
    ensures var h := FirstClear(o, from);
      && (forall k: nat | from <= k < h :: !ClearWay(o, k)) && (h < 5 ==> ClearWay(o, h))
    decreases 5 - from
  {
    if from < 5 && !ClearAt(o, from) {
      FirstClearIs(o, from + 1);
    }
  }

  lemma ChosenWay(o: Observation, before: nat)
    ensures var h := ChooseHeading(o, before);
      if Cornered(o) then h == 5 else GoesWay(o, before, h)
  {
    FirstClearIs(o, 0);
    if !Cornered(o) {
      var k: nat :| k < 5 && ClearWay(o, k);
    }
  }

  /** A retreat as it stands when it begins. */
  function From(k: Backing, position: Vec3): Backing {
    if k.active then k
    else k.(active := true, turning := false, turnTicks := 0, ticks := 0, windowStart := position, windowTicks := 0,
            heading := 0)
  }

  /** Over, and not again for as long as it has to wait. */
  predicate Over(r: Retreat, k: Backing) {
    !k.active && !k.turning && k.turnTicks == 0 && k.ticks == 0 && k.windowTicks == 0 && k.cooldown == r.cooldownTicks
  }

  /** One more step of a retreat. */
  predicate GoesOn(c: Tuning, k: Backing, p: Backing, o: Observation, position: Vec3) {
    && p.active && !p.turning && p.ticks == k.ticks + 1 && p.cooldown == k.cooldown && p.turnTicks == k.turnTicks
    && GoesWay(o, k.heading, p.heading)
    && (if k.windowTicks >= 15 then p.windowStart == position && p.windowTicks == 1
        else p.windowStart == k.windowStart && p.windowTicks == k.windowTicks + 1)
  }

  /** What ends the moving away. */
  predicate FarEnough(c: Tuning, k: Backing, position: Vec3, from: Vec3) {
    if c.retreat.style == TurnAndRun then k.ticks >= c.retreat.runTicks
    else !Near(position, from, c.retreat.targetDistance) || k.ticks >= c.retreat.maxTicks
  }

  predicate Stops(c: Tuning, a: Agent, k: Backing, o: Observation, position: Vec3, from: Vec3) {
    FarEnough(c, k, position, from) || AtLeash(c, a, position) || GoesNowhere(c, k, position) || Cornered(o)
  }

  /** One step: it stops for one of four reasons, and otherwise goes on. */
  lemma StepIs(c: Tuning, a: Agent, k: Backing, o: Observation, from: Vec3)
    requires k.active && !k.turning
    ensures var p := StepAway(c, LeashMeters(c, BehaviorOf(a)), k, o, a.position, a.place.anchor, from);
      if !Stops(c, a, k, o, a.position, from) then GoesOn(c, k, p, o, a.position)
      else if c.retreat.style == TurnAndRun then
        p.active && p.turning && p.turnTicks == 0 && p.cooldown == k.cooldown && p.ticks == k.ticks
      else Over(c.retreat, p)
  {
    var leash := LeashMeters(c, BehaviorOf(a));
    assert leash == LeashFor(c, a, false);
    NearIs(a.position, from, c.retreat.targetDistance);
    NearIs(a.position, a.place.anchor, leash - 0.5);
    StallIs(c, k, a.position);
    ChosenWay(o, k.heading);
    hide Near, CloserThan, LeashMeters, LeashFor, GoesWay, Cornered, ChooseHeading, Stalled, GoesNowhere;
  }

  lemma StallIs(c: Tuning, k: Backing, position: Vec3)
    ensures GoesNowhere(c, k, position) <==> k.windowTicks >= 15 && Stalled(c, k, position)
  {
    var asked := c.stepMeters * c.retreat.inputMagnitude * k.windowTicks as real;
    assert STALL_FRACTION * asked == 0.3 * asked;
    NearIs(position, k.windowStart, 0.3 * asked);
    hide Near, CloserThan;
  }

  // ----- with the target in sight -------------------------------------------------------------

  /** Whether this tick backs away at all: it does already, or the target has come too close and
      the wait is over. A leap under way forbids it. */
  predicate BacksAway(c: Tuning, a: Agent, o: Observation) {
    && c.retreat.trigger > 0.0 && LeapLeft(a, o) == 0
    && (a.backing.active || (a.backing.cooldown <= 1 && Near(o.position, o.targetPoint, c.retreat.trigger)))
  }

  /** Where a pursuit is free to fight, this is what becomes of its retreat. */
  lemma RetreatTick(c: Tuning, a: Agent, o: Observation)
    requires Pursuing(a.sentry.state) && Watched(c, a, o, a.place.anchor) && FreeToFight(c, a, o)
    requires a.backing.active ==> !a.backing.turning
    ensures var p := ChaserTick(c, a, o).backing;
      var waited := a.backing.(cooldown := Less(a.backing.cooldown));
      var k := From(waited, o.position);
      if !BacksAway(c, a, o) then
        if a.backing.active && c.retreat.trigger > 0.0 then Over(c.retreat, p) else p == waited
      else if !Stops(c, a, k, o, o.position, o.targetPoint) then GoesOn(c, k, p, o, o.position)
      else if c.retreat.style == TurnAndRun then p.active && p.turning && p.turnTicks == 0 && p.cooldown == k.cooldown
      else Over(c.retreat, p)
  {
    SettledPursuit(c, a, o);
    TickIs(c, a, o);
    hide Watched, Fight, Settled, ChaserTick, BehaviorOf, LeashMeters, Arm, UpdateRetreat;
    var settled := Settled(c, a, o);
    SameHold(c, a, settled);
    FreeFight(c, BehaviorOf(a), settled, o);
    CloseRetreat(c, settled, o);
    hide Close;
  }

  lemma SameHold(c: Tuning, a: Agent, b: Agent)
    requires a.place == b.place && a.role == b.role
    ensures BehaviorOf(a) == BehaviorOf(b)
    ensures forall p :: AtLeash(c, a, p) <==> AtLeash(c, b, p)
  {
  }

  lemma CloseRetreat(c: Tuning, a: Agent, o: Observation)
    requires a.backing.active ==> !a.backing.turning
    ensures var u := a.burst.(windup := 0);
      var p :=
        UpdateRetreat(c, LeashMeters(c, BehaviorOf(a)), a.backing, u, o, a.position, a.place.anchor, o.targetPoint);
      var k := From(a.backing, a.position);
      var backs := c.retreat.trigger > 0.0 && a.burst.leapLeft == 0 && a.burst.chargeLeft == 0
        && (a.backing.active || (a.backing.cooldown == 0 && Near(a.position, o.targetPoint, c.retreat.trigger)));
      if !backs then
        if a.backing.active && c.retreat.trigger > 0.0 then Over(c.retreat, p) else p == a.backing
      else if !Stops(c, a, k, o, a.position, o.targetPoint) then GoesOn(c, k, p, o, a.position)
      else if c.retreat.style == TurnAndRun then p.active && p.turning && p.turnTicks == 0 && p.cooldown == k.cooldown
      else Over(c.retreat, p)
  {
    NearIs(a.position, o.targetPoint, c.retreat.trigger);
    StepIs(c, a, From(a.backing, a.position), o, o.targetPoint);
    hide Near, CloserThan, StepAway, LeashMeters, Stops, GoesWay;
  }

  // ----- running off -------------------------------------------------------------------------------

  /** One tick of running from the target, then turning back: it ends where it sees the target while
      turning, where turning takes too long, or where it no longer knows where the target is. */
  predicate RunsOn(c: Tuning, a: Agent, k: Backing, p: Backing, o: Observation, from: Vec3) {
    if k.turning || Stops(c, a, k, o, o.position, from) then
      var turned := if k.turning then k.turnTicks + 1 else 1;
      if o.visible || turned >= 180 then Over(c.retreat, p)
      else p.active && p.turning && p.turnTicks == turned && p.ticks == k.ticks && p.cooldown == k.cooldown
    else GoesOn(c, k, p, o, o.position)
  }

  lemma RunBacking(c: Tuning, a: Agent, o: Observation, from: Vec3)
    requires a.backing.active && c.retreat.style == TurnAndRun && c.retreat.trigger > 0.0 && a.position == o.position
    requires a.burst.leapLeft == 0 && a.burst.windup == 0 && a.burst.chargeLeft == 0
    ensures var leash := LeashMeters(c, BehaviorOf(a));
      var moved := UpdateRetreat(c, leash, a.backing, a.burst, o, a.position, a.place.anchor, from);
      RunsOn(c, a, a.backing, TurnBack(c.retreat, moved, o.visible), o, from)
  {
    if !a.backing.turning {
      StepIs(c, a, a.backing, o, from);
    }
    hide StepAway, LeashMeters, Stops, GoesWay;
  }

  /** The target, in sight or not. */
  function Quarry(a: Agent, o: Observation): nat {
    if o.visible then o.targetId else a.sentry.target
  }

  lemma RunTick(c: Tuning, a: Agent, o: Observation)
    requires Pursuing(a.sentry.state) && o.present && Held(c, a, o, a.place.anchor)
    requires a.backing.active && c.retreat.style == TurnAndRun && c.retreat.trigger > 0.0
    requires LeapLeft(a, o) == 0 && ChargeLeft(a, o) == 0 && (o.visible ==> WindupLeft(a, o) == 0)
    ensures var p := ChaserTick(c, a, o);
      if Quarry(a, o) in o.actors then
        && p.sentry.state == Chasing
        && RunsOn(c, a, a.backing.(cooldown := Less(a.backing.cooldown)), p.backing, o,
                  if o.visible then o.targetPoint else o.actors[Quarry(a, o)])
      else Over(c.retreat, p.backing)
  {
    SettledRun(c, a, o);
    TickIs(c, a, o);
    hide Held, Fight, Settled, ChaserTick, BehaviorOf, LeashMeters, RunsOn, Over;
    RunFight(c, Settled(c, a, o), o);
    SameRun(c, a, Settled(c, a, o), Settled(c, a, o).backing, ChaserTick(c, a, o).backing, o,
            if o.visible || Quarry(a, o) !in o.actors then o.targetPoint else o.actors[Quarry(a, o)]);
  }

  lemma SameRun(c: Tuning, a: Agent, b: Agent, k: Backing, p: Backing, o: Observation, from: Vec3)
    requires a.place == b.place && a.role == b.role
    ensures RunsOn(c, a, k, p, o, from) <==> RunsOn(c, b, k, p, o, from)
    ensures BehaviorOf(a) == BehaviorOf(b)
  {
    hide GoesOn, Over, Cornered, GoesNowhere, FarEnough;
  }

  lemma SettledRun(c: Tuning, a: Agent, o: Observation)
    requires Pursuing(a.sentry.state) && o.present && Held(c, a, o, a.place.anchor)
    ensures var p := Settled(c, a, o);
      && p.place == a.place && p.role == a.role && p.position == o.position && Pursuing(p.sentry.state)
      && p.sentry.target == Quarry(a, o) && p.backing == a.backing.(cooldown := Less(a.backing.cooldown))
      && p.burst.leapLeft == LeapLeft(a, o) && p.burst.chargeLeft == ChargeLeft(a, o)
      && p.burst.windup == a.burst.windup
  {
    var q := Cooled(a);
    HeldIsLeash(c, q, o, a.place.anchor);
    assert Held(c, q, o, a.place.anchor) == Held(c, a, o, a.place.anchor);
    hide Beyond, ApplicableLeash, Held;
    SettleNothing(c, BehaviorOf(a), Perceive(c, q, o), o);
    hide Settle;
  }

  lemma RunFight(c: Tuning, a: Agent, o: Observation)
    requires Pursuing(a.sentry.state) && a.position == o.position
    requires a.backing.active && c.retreat.style == TurnAndRun && c.retreat.trigger > 0.0
    requires a.burst.leapLeft == 0 && a.burst.chargeLeft == 0 && (o.visible && !o.knocked ==> a.burst.windup == 0)
    ensures var f := Fight(c, BehaviorOf(a), a, o);
      if a.sentry.target in o.actors then
        f.sentry.state == Chasing
        && RunsOn(c, a, a.backing, f.backing, o, if o.visible then o.targetPoint else o.actors[a.sentry.target])
      else Over(c.retreat, f.backing)
  {
    var ready := a.(burst := DropWindup(a, o).burst);
    if a.sentry.target in o.actors {
      var from := if o.visible then o.targetPoint else o.actors[a.sentry.target];
      RunBacking(c, ready, o, from);
      SameRun(c, ready, a, a.backing, Fight(c, BehaviorOf(a), a, o).backing, o, from);
    }
    hide UpdateRetreat, TurnBack, LeashMeters, RunsOn, Close;
  }

  // ----- over a run -----------------------------------------------------------------------------------

  /** Backing off has an end: while the target is in sight and it is free to fight, no more steps are
      taken than its tuning allows, and then it waits before the next. */
  lemma {:induction false} BackpedalEnds(c: Tuning, a: Agent, os: seq<Observation>)
    requires c.retreat.style == Backpedal && c.retreat.trigger > 0.0
    requires Pursuing(a.sentry.state) && a.backing.active && !a.backing.turning && a.burst.windup == 0
    requires forall o :: o in os ==>
      Watched(c, a, o, a.place.anchor) && !o.chargeReady && o.leapAirtime == 0 && !o.charging
    requires forall k :: 0 <= k <= |os| ==> Ticks(c, a, os[..k]).backing.active
    ensures var p := Ticks(c, a, os);
      && SameFight(p, a) && Pursuing(p.sentry.state) && !p.backing.turning && p.burst.windup == 0
      && p.backing.ticks == a.backing.ticks + |os|
      && (os != [] ==> p.backing.ticks <= c.retreat.maxTicks)
  {
    hide Watched, ChaserTick;
    if os != [] {
      var last, before := |os| - 1, Ticks(c, a, os[..|os| - 1]);
      assert os[last] in os && forall o :: o in os[..last] ==> o in os;
      forall k | 0 <= k <= last ensures Ticks(c, a, os[..last][..k]).backing.active {
        assert os[..last][..k] == os[..k];
      }
      BackpedalEnds(c, a, os[..last]);
      SameWatch(c, a, before, os[last]);
      PursuitTick(c, before, os[last]);
      RetreatTick(c, before, os[last]);
      StartsBursts(c, before, os[last]);
      assert os[..|os|] == os;
      hide Ticks;
    }
  }

  /** One that backs away facing its target stops the tick it loses sight of it, whatever becomes of the fight, and its
      cooldown begins. */
  lemma LostRetreat(c: Tuning, a: Agent, o: Observation)
    requires o.present && !o.visible && a.backing.active && c.retreat.style != TurnAndRun
    ensures ChaserTick(c, a, o).backing
      == a.backing.(active := false, turning := false, turnTicks := 0, ticks := 0, windowTicks := 0,
                    cooldown := c.retreat.cooldownTicks)
  {
    TickIs(c, a, o);
    assert Perceive(c, Cooled(a), o).backing == Cooled(a).backing by {
      hide Beyond, ApplicableLeash, RefreshBurst;
    }
    hide Perceive, ChaserTick, Settled, RunAway, Close, WindUp, Searching, LeashMeters;
    SettledBacking(c, a, o);
  }

  lemma SettledBacking(c: Tuning, a: Agent, o: Observation)
    ensures Settled(c, a, o).backing == Perceive(c, Cooled(a), o).backing
  {
    hide Perceive, WalkHome;
  }
}
