/** Everything that touches an agent's engagement between two frames. */
module AgentEvents {
  import opened Geometry
  import opened Engagement

  /** Its own controller, its squad's alert, the resync, its squad placing it, the squad's
      return pass giving up on a Return, an order to switch behaviour, and a behaviour given
      to it unchecked: what it was spawned with, or what a hunter or a locked-on agent turns
      into once its target is gone. An order's route or target has been found good. */
  datatype Event =
    | Controller(o: Observation)
    | SquadAlert(attention: Vec3, byDamage: bool)
    | Resync(position: Vec3)
    | Placed(slot: Vec3)
    | ReturnGivenUp
    | Commanded(role: Role, post: Post)
    | RoleChanged(role: Role, post: Post)

  function AlertedBySquad(a: Agent, attention: Vec3, byDamage: bool): Agent {
    a.(place := a.place.(anchor := a.position),
       sentry := TransitionTo(a.sentry, Alert).(bySquad := true, byDamage := byDamage,
                                                attention := attention, hasAttention := true))
  }

  /** Leaving a guard or becoming one forgets the post; a post that was given is kept. */
  function ApplyBehavior(a: Agent, role: Role, post: Post): Agent {
    a.(role := role,
       post := if post != NoPost then post
               else if a.role == GuardRole || role == GuardRole then NoPost else a.post)
  }

  /** A sentry cannot walk and nothing else stands still, a squad keeps its members, and
      only a guard is given a post. */
  predicate MaySwitch(a: Agent, role: Role, post: Post) {
    && !a.place.inSquad && a.role != NoRole && a.role != SentryRole
    && (role == GuardRole || ((role == PatrolRole || role == HunterRole || role == LockTargetRole) && post == NoPost))
  }

  function LetGo(s: Sentry): Sentry {
    TransitionTo(s.(target := 0, hasAttention := false, byDamage := false), Idle)
  }

  function Next(c: Tuning, a: Agent, e: Event): Agent {
    match e
    case Controller(o) => ChaserTick(c, a, o)
    case SquadAlert(p, d) => if a.sentry.state == Idle && a.place.inSquad then AlertedBySquad(a, p, d) else a
    case Resync(p) => a.(position := p)
    case Placed(s) => a.(place := a.place.(inSquad := true, slot := s))
    case ReturnGivenUp =>
      if a.place.inSquad && a.sentry.state == Return then a.(sentry := TransitionTo(a.sentry, Idle)) else a
    case Commanded(r, p) => if MaySwitch(a, r, p) then ApplyBehavior(a.(sentry := LetGo(a.sentry)), r, p) else a
    case RoleChanged(r, p) => if r != NoRole then ApplyBehavior(a, r, p) else a
  }

  /** An order is obeyed outside a squad, by one that walks, for a role that walks; only a guard may be told where to
      stand. It is idle then, after nobody, where it was. */
  lemma OrderIs(c: Tuning, a: Agent, role: Role, post: Post)
    ensures var p, s := Next(c, a, Commanded(role, post)), Next(c, a, Commanded(role, post)).sentry;
      var walks := !a.place.inSquad && !a.role.NoRole? && !a.role.SentryRole?;
      var told := role.GuardRole? || (post == NoPost && (role.PatrolRole? || role.HunterRole? || role.LockTargetRole?));
      if walks && told then
        && s.state == Idle && s.target == 0 && !s.hasAttention && !s.byDamage
        && (a.sentry.state != Idle ==> s.stateTicks == 0 && s.lostTicks == 0 && !s.bySquad)
        && p == a.(role := role, sentry := s, post := PostAfter(a, role, post))
      else p == a
  {
  }

  /** A post it is given, or none where a guard's duty begins or ends, or the one it has. */
  function PostAfter(a: Agent, role: Role, post: Post): Post {
    if post != NoPost then post
    else if a.role.GuardRole? then NoPost
    else if role.GuardRole? then NoPost
    else a.post
  }

  /** A behaviour it is given unasked changes its role and its post, and nothing of a fight it is in. */
  lemma RoleIs(c: Tuning, a: Agent, role: Role, post: Post)
    ensures Next(c, a, RoleChanged(role, post))
      == if role.NoRole? then a else a.(role := role, post := PostAfter(a, role, post))
  {
  }
}
