/** One agent's engagement: the chaser tick as a function from what the agent
    remembers and what it perceives to what it remembers next. Each phase below is
    one block of the tick, in the order the tick runs them. */
module Engagement {
  import opened Geometry
  import opened Counters

  datatype State = Idle | Alert | Attack | Return | Chasing | Search | Seek

  datatype Role = NoRole | SentryRole | GuardRole | PatrolRole | SquadRole | HunterRole | LockTargetRole

  /** What a chaser role answers to; a squad slot decides before the role does. */
  datatype Behavior = SquadMember | Guard | Patrol | Hunter | LockTarget

  datatype RetreatStyle = Backpedal | TurnAndRun

  datatype Retreat = Retreat(style: RetreatStyle, trigger: real, targetDistance: real,
                             inputMagnitude: real, maxTicks: nat, runTicks: nat, cooldownTicks: nat)

  datatype Leash = Leash(meters: real, resume: real)

  datatype Tuning = Tuning(
    alertTicks: nat, alertOnDamageTicks: nat, forgetTicks: nat,
    stepMeters: real,
    squad: Leash, slotRadius: real, guard: Leash, patrol: Leash,
    retreat: Retreat,
    windupTicks: nat, chargeCooldown: nat,
    leapCooldown: nat, leapLead: nat)

  datatype Sentry = Sentry(
    state: State, stateTicks: nat, lostTicks: nat,
    target: nat, hasAttention: bool, attention: Vec3,
    byDamage: bool, bySquad: bool)

  datatype Place = Place(anchor: Vec3, slot: Vec3, inSquad: bool)

  datatype Post = NoPost | PostAt(point: Vec3)

  datatype Backing = Backing(
    active: bool, turning: bool, turnTicks: nat, ticks: nat,
    windowTicks: nat, windowStart: Vec3, heading: nat, cooldown: nat)

  datatype Burst = Burst(leapLeft: nat, leapCooldown: nat, windup: nat, chargeLeft: nat, chargeCooldown: nat)

  datatype Agent = Agent(sentry: Sentry, position: Vec3, place: Place, role: Role, post: Post,
                         backing: Backing, burst: Burst)

  /** What the kernel, the navmesh and the weapons answer this tick. */
  datatype Observation = Observation(
    present: bool, position: Vec3,
    visible: bool, targetId: nat, targetPoint: Vec3,
    damaged: bool, damageSource: Vec3,
    actors: map<nat, Vec3>,
    leaping: bool, charging: bool, knocked: bool,
    clear: seq<bool>,
    chargeReady: bool, chargeRun: nat, leapAirtime: nat,
    weaponReaches: bool)

  const HEADINGS: nat := 5
  const STALL_WINDOW: nat := 15
  const STALL_FRACTION: real := 0.3
  const LEASH_MARGIN: real := 0.5
  const TURN_LIMIT: nat := 180
  const SQUAD_LEASH_IN_SIGHT: real := 40.0
  const RETURN_ARRIVAL: real := 1.0

  predicate Pursuing(s: State) {
    s == Chasing || s == Attack
  }

  predicate Engaged(s: State) {
    s == Alert || Pursuing(s) || s == Search
  }

  function BehaviorOf(a: Agent): Behavior {
    if a.place.inSquad then SquadMember
    else match a.role
      case SquadRole => SquadMember
      case PatrolRole => Patrol
      case HunterRole => Hunter
      case LockTargetRole => LockTarget
      case _ => Guard
  }

  function LeashOf(c: Tuning, b: Behavior): Leash {
    match b
    case SquadMember => c.squad
    case Patrol => c.patrol
    case _ => c.guard
  }

  function LeashMeters(c: Tuning, b: Behavior): real {
    if b == LockTarget then 0.0 else LeashOf(c, b).meters
  }

  /** A squad member that still sees its target is let out further. */
  function LeashInSight(c: Tuning, b: Behavior): real {
    if b == SquadMember && 0.0 < c.squad.meters < SQUAD_LEASH_IN_SIGHT
    then SQUAD_LEASH_IN_SIGHT
    else LeashMeters(c, b)
  }

  function ApplicableLeash(c: Tuning, b: Behavior, visible: bool): real {
    if visible then LeashInSight(c, b) else LeashMeters(c, b)
  }

  /** A leash of zero is no leash. */
  predicate Beyond(leash: real, position: Vec3, anchor: Vec3) {
    leash > 0.0 && !Within(position, anchor, leash)
  }

  /** `horizontal_distance(p, q) < r`. */
  predicate CloserThan(p: Vec3, q: Vec3, r: real) {
    r > 0.0 && Horizontal2(p, q) < r * r
  }

  function Forgotten(b: Behavior): State {
    match b
    case SquadMember => Return
    case Guard => Idle
    case Patrol => Idle
    case Hunter => Seek
    case LockTarget => Seek
  }

  function TransitionTo(s: Sentry, state: State): Sentry {
    if s.state == state then s
    else s.(state := state, stateTicks := 0, lostTicks := 0, bySquad := false)
  }

  // ----- perception, hits and the leash ------------------------------------------

  function RefreshBurst(k: Burst, o: Observation): Burst {
    k.(leapLeft := if o.leaping then Down(k.leapLeft) else 0,
       leapCooldown := Down(k.leapCooldown),
       chargeLeft := if o.charging then Down(k.chargeLeft) else 0,
       chargeCooldown := Down(k.chargeCooldown))
  }

  function Look(s: Sentry, o: Observation): Sentry {
    if o.visible then
      s.(target := o.targetId, lostTicks := 0, hasAttention := true,
         attention := if o.targetId in o.actors then o.actors[o.targetId] else o.targetPoint)
    else
      s.(lostTicks := s.lostTicks + 1)
  }

  predicate Startled(s: Sentry, o: Observation) {
    o.damaged && (s.state == Idle || s.state == Search || s.state == Seek)
  }

  function Hit(s: Sentry, o: Observation): Sentry {
    if !o.damaged then s
    else
      var t := if Startled(s, o) then TransitionTo(s, Alert).(byDamage := true) else s;
      if t.state == Return || o.visible then t
      else t.(attention := o.damageSource, hasAttention := true)
  }

  function HitAnchor(s: Sentry, anchor: Vec3, o: Observation): Vec3 {
    if Startled(s, o) && s.state != Search then o.position else anchor
  }

  function BreakOff(leash: real, s: Sentry, position: Vec3, anchor: Vec3): Sentry {
    if Beyond(leash, position, anchor) && Engaged(s.state)
    then TransitionTo(s.(target := 0, hasAttention := false), Return)
    else s
  }

  /** Everything up to and including the leash. */
  function Perceive(c: Tuning, a: Agent, o: Observation): Agent {
    var looked := Look(a.sentry, o);
    var anchor := HitAnchor(looked, a.place.anchor, o);
    a.(position := o.position,
       burst := RefreshBurst(a.burst, o),
       place := a.place.(anchor := anchor),
       sentry := BreakOff(ApplicableLeash(c, BehaviorOf(a), o.visible), Hit(looked, o), o.position, anchor))
  }

  // ----- Return, Idle, Seek and Alert ----------------------------------------------

  predicate BackHome(c: Tuning, b: Behavior, position: Vec3, place: Place) {
    if b == SquadMember then
      Within(position, place.slot, c.slotRadius) || Within(position, place.anchor, c.squad.resume)
    else
      Within(position, place.anchor, HomeRadius(c, b))
  }

  function HomeRadius(c: Tuning, b: Behavior): real {
    if LeashOf(c, b).resume > RETURN_ARRIVAL then LeashOf(c, b).resume else RETURN_ARRIVAL
  }

  function WalkHome(c: Tuning, b: Behavior, a: Agent): Sentry {
    if a.sentry.state == Return && BackHome(c, b, a.position, a.place) then TransitionTo(a.sentry, Idle) else a.sentry
  }

  /** Idle with nothing in sight: a hunter goes looking, the rest stay. */
  function Rest(b: Behavior, s: Sentry): Sentry {
    if s.state == Idle && (b == Hunter || b == LockTarget) then TransitionTo(s, Seek) else s
  }

  predicate Acquires(s: Sentry, o: Observation) {
    o.visible && (s.state == Idle || s.state == Seek)
  }

  function Acquire(s: Sentry): Sentry {
    TransitionTo(s.(byDamage := false), Alert)
  }

  function Forget(b: Behavior, s: Sentry): Sentry {
    TransitionTo(s.(target := 0, hasAttention := false), Forgotten(b))
  }

  function Alerted(c: Tuning, b: Behavior, s: Sentry, o: Observation): Sentry {
    if s.state != Alert then s
    else if o.visible then
      var waited := s.(stateTicks := s.stateTicks + 1);
      if waited.stateTicks >= (if s.byDamage then c.alertOnDamageTicks else c.alertTicks)
      then TransitionTo(waited, Chasing) else waited
    else if s.lostTicks >= c.forgetTicks then Forget(b, s)
    else s
  }

  /** Sight from Idle or Seek anchors the leash where the chase starts. */
  function Settle(c: Tuning, b: Behavior, a: Agent, o: Observation): Agent {
    var home := WalkHome(c, b, a);
    var acquires := Acquires(home, o);
    a.(sentry := Alerted(c, b, if acquires then Acquire(home) else Rest(b, home), o),
       place := if acquires then a.place.(anchor := a.position) else a.place,
       post := if b == Guard && home.state == Idle && !acquires && a.post == NoPost then PostAt(a.position) else a.post)
  }

  // ----- the retreat -----------------------------------------------------------

  function EndRetreat(r: Retreat, k: Backing): Backing {
    k.(active := false, turning := false, turnTicks := 0, ticks := 0,
       windowTicks := 0, cooldown := r.cooldownTicks)
  }

  function FinishMovingAway(r: Retreat, k: Backing): Backing {
    if r.style == TurnAndRun then k.(turning := true, turnTicks := 0) else EndRetreat(r, k)
  }

  predicate MovedAwayEnough(r: Retreat, leash: real, k: Backing, position: Vec3, anchor: Vec3, from: Vec3) {
    || (if r.style == TurnAndRun then k.ticks >= r.runTicks
        else !CloserThan(position, from, r.targetDistance) || k.ticks >= r.maxTicks)
    || (leash > 0.0 && !CloserThan(position, anchor, leash - LEASH_MARGIN))
  }

  /** It made good less than the stall fraction of what it asked for. */
  predicate Stalled(c: Tuning, k: Backing, position: Vec3) {
    CloserThan(position, k.windowStart,
               STALL_FRACTION * (c.stepMeters * c.retreat.inputMagnitude * k.windowTicks as real))
  }

  predicate ClearAt(o: Observation, heading: nat) {
    heading < |o.clear| && o.clear[heading]
  }

  function FirstClear(o: Observation, from: nat): (h: nat)
    requires from <= HEADINGS
    ensures from <= h <= HEADINGS
    decreases HEADINGS - from
  {
    if from == HEADINGS || ClearAt(o, from) then from else FirstClear(o, from + 1)
  }

  /** The heading it was on, if still clear; otherwise the first clear one. */
  function ChooseHeading(o: Observation, current: nat): (h: nat)
    ensures h <= HEADINGS
  {
    if current < HEADINGS && ClearAt(o, current) then current else FirstClear(o, 0)
  }

  function StepAway(c: Tuning, leash: real, k: Backing, o: Observation, position: Vec3, anchor: Vec3,
                    from: Vec3): Backing
  {
    var enough := MovedAwayEnough(c.retreat, leash, k, position, anchor, from);
    var windowOver := !enough && k.windowTicks >= STALL_WINDOW;
    var done := enough || (windowOver && Stalled(c, k, position));
    var j := if windowOver then k.(windowStart := position, windowTicks := 0) else k;
    var heading := ChooseHeading(o, j.heading);
    if done || heading == HEADINGS then FinishMovingAway(c.retreat, j)
    else j.(heading := heading, ticks := j.ticks + 1, windowTicks := j.windowTicks + 1)
  }

  predicate Airborne(u: Burst) {
    u.leapLeft > 0 || u.windup > 0 || u.chargeLeft > 0
  }

  function StartRetreat(k: Backing, position: Vec3): Backing {
    k.(active := true, turning := false, turnTicks := 0, ticks := 0,
       windowStart := position, windowTicks := 0, heading := 0)
  }

  function UpdateRetreat(c: Tuning, leash: real, k: Backing, u: Burst, o: Observation,
                         position: Vec3, anchor: Vec3, from: Vec3): Backing {
    if c.retreat.trigger <= 0.0 then k
    else if Airborne(u) then
      if k.active then EndRetreat(c.retreat, k) else k
    else if !k.active && (k.cooldown > 0 || !CloserThan(position, from, c.retreat.trigger)) then k
    else
      var j := if k.active then k else StartRetreat(k, position);
      if j.turning then j else StepAway(c, leash, j, o, position, anchor, from)
  }

  // ----- the pursuit -----------------------------------------------------------

  /** What a fight changes: nothing of where the agent is or is posted. */
  datatype Bout = Bout(sentry: Sentry, backing: Backing, burst: Burst)

  function DropWindup(a: Agent, o: Observation): Bout {
    Bout(a.sentry, a.backing,
         if !Pursuing(a.sentry.state) || !o.visible || o.knocked then a.burst.(windup := 0) else a.burst)
  }

  function WindUp(c: Tuning, f: Bout, o: Observation): Bout
    requires f.burst.windup > 0
  {
    var u := f.burst.(windup := f.burst.windup - 1);
    f.(sentry := f.sentry.(lostTicks := 0, state := Attack),
       burst := if u.windup > 0 || f.sentry.target !in o.actors then u
                else if o.chargeRun == 0 then u.(chargeCooldown := c.chargeCooldown)
                else u.(chargeLeft := o.chargeRun, chargeCooldown := o.chargeRun + c.chargeCooldown))
  }

  function TurnBack(r: Retreat, k: Backing, visible: bool): Backing {
    if !(k.active && k.turning) then k
    else
      var t := k.(turnTicks := k.turnTicks + 1);
      if visible || t.turnTicks >= TURN_LIMIT then EndRetreat(r, t) else t
  }

  function RunAway(c: Tuning, leash: real, f: Bout, o: Observation, position: Vec3, anchor: Vec3): Bout {
    var seen := f.sentry.(lostTicks := 0);
    if seen.target !in o.actors then
      f.(sentry := TransitionTo(seen, Search), backing := EndRetreat(c.retreat, f.backing))
    else
      var from := if o.visible then o.targetPoint else o.actors[seen.target];
      var moved := UpdateRetreat(c, leash, f.backing, f.burst, o, position, anchor, from);
      f.(sentry := seen.(state := Chasing), backing := TurnBack(c.retreat, moved, o.visible))
  }

  /** A charge is tried ahead of a leap; neither starts while it backs away. */
  function Arm(c: Tuning, k: Backing, u: Burst, target: nat, o: Observation): Burst {
    if k.active || target !in o.actors then u
    else if o.chargeReady && u.chargeCooldown == 0 && !Airborne(u) then u.(windup := c.windupTicks + 1)
    else if o.leapAirtime > 0 && u.leapLeft == 0 && u.leapCooldown == 0
    then u.(leapLeft := o.leapAirtime, leapCooldown := o.leapAirtime + c.leapCooldown)
    else u
  }

  function Close(c: Tuning, leash: real, f: Bout, o: Observation, position: Vec3, anchor: Vec3): Bout {
    var moved := UpdateRetreat(c, leash, f.backing, f.burst, o, position, anchor, o.targetPoint);
    var armed := Arm(c, moved, f.burst, f.sentry.target, o);
    var reaches := if armed.leapLeft > 0 then armed.leapLeft <= c.leapLead else o.weaponReaches;
    Bout(f.sentry.(lostTicks := 0, state := if reaches || armed.windup > 0 then Attack else Chasing), moved, armed)
  }

  /** Whether this tick's pursuit runs the retreat; one it does not run ends. */
  predicate RunsRetreat(c: Tuning, f: Bout, o: Observation) {
    && Pursuing(f.sentry.state)
    && !(o.visible && (f.burst.chargeLeft > 0 || f.burst.windup > 0))
    && (o.visible || (f.backing.active && c.retreat.style == TurnAndRun))
  }

  function Pursue(c: Tuning, leash: real, f: Bout, o: Observation, position: Vec3, anchor: Vec3): Bout {
    if !Pursuing(f.sentry.state) then f
    else if o.visible && f.burst.chargeLeft > 0 then f.(sentry := f.sentry.(lostTicks := 0, state := Attack))
    else if o.visible && f.burst.windup > 0 then WindUp(c, f, o)
    else if f.backing.active && c.retreat.style == TurnAndRun then RunAway(c, leash, f, o, position, anchor)
    else if o.visible then Close(c, leash, f, o, position, anchor)
    else f.(sentry := TransitionTo(f.sentry, Search))
  }

  function Searching(c: Tuning, b: Behavior, s: Sentry, o: Observation): Sentry {
    if s.state != Search then s
    else if o.visible then TransitionTo(s, Chasing)
    else if s.lostTicks >= c.forgetTicks || !s.hasAttention then Forget(b, s)
    else s
  }

  /** The pursuit, the search, and the end of a retreat nothing ran. */
  function Fight(c: Tuning, b: Behavior, a: Agent, o: Observation): Bout {
    var ready := DropWindup(a, o);
    var pursued := Pursue(c, LeashMeters(c, b), ready, o, a.position, a.place.anchor);
    pursued.(sentry := Searching(c, b, pursued.sentry, o),
             backing := if pursued.backing.active && !RunsRetreat(c, ready, o)
                        then EndRetreat(c.retreat, pursued.backing) else pursued.backing)
  }

  // ----- the whole tick --------------------------------------------------------

  function Cooled(a: Agent): Agent {
    a.(backing := a.backing.(cooldown := Down(a.backing.cooldown)))
  }

  function WithBout(a: Agent, f: Bout): Agent {
    a.(sentry := f.sentry, backing := f.backing, burst := f.burst)
  }

  function ChaserTick(c: Tuning, agent: Agent, o: Observation): Agent {
    var a := Cooled(agent);
    if !o.present then a
    else
      var b := BehaviorOf(a);
      var settled := Settle(c, b, Perceive(c, a, o), o);
      WithBout(settled, Fight(c, b, settled, o))
  }
}
