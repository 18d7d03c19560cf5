/** The leash over whole runs: whatever an agent sees and whatever hits it, a fight
    stays within the leash of where it began, and one that was broken off does not
    resume before the agent has walked home. */
module LeashSafety {
  import opened Geometry
  import opened Engagement
  import opened AgentEvents

  /** An agent, and where it stood when its last fight began. */
  datatype Tracked = Tracked(agent: Agent, origin: Vec3)

  /** The tick has a block that takes the agent out of Idle or Seek and into a fight: a hit
      it did not see coming, or a target in sight. No leash decides this. */
  predicate StartsFight(c: Tuning, a: Agent, o: Observation) {
    || (Startled(Look(a.sentry, o), o) && a.sentry.state != Search)
    || Acquires(WalkHome(c, BehaviorOf(a), Perceive(c, Cooled(a), o)), o)
  }

  /** Where a fight began is where the agent stood then, and nothing moves it until the next
      one begins. */
  function NextOrigin(c: Tuning, t: Tracked, e: Event): Vec3 {
    match e
    case Controller(o) => if o.present && StartsFight(c, t.agent, o) then o.position else t.origin
    case SquadAlert(_, _) => if t.agent.sentry.state == Idle
      && t.agent.place.inSquad then t.agent.position else t.origin
    case _ => t.origin
  }

  function Advance(c: Tuning, t: Tracked, e: Event): Tracked {
    Tracked(Next(c, t.agent, e), NextOrigin(c, t, e))
  }

  function Run(c: Tuning, t: Tracked, events: seq<Event>): Tracked {
    if events == [] then t else Advance(c, Run(c, t, events[..|events| - 1]), events[|events| - 1])
  }

  ghost predicate AnchoredAtOrigin(t: Tracked) {
    Engaged(t.agent.sentry.state) ==> t.agent.place.anchor == t.origin
  }

  // ----- one tick, phase by phase ----------------------------------------------

  lemma SamePlaceIsWithin(leash: real, p: Vec3)
    ensures !Beyond(leash, p, p)
  {
    assert Horizontal2(p, p) == 0.0;
    if leash > 0.0 { assert leash * leash > 0.0; }
  }

  lemma PerceiveFacts(c: Tuning, a: Agent, o: Observation)
    ensures var p := Perceive(c, a, o); var leash := ApplicableLeash(c, BehaviorOf(a), o.visible);
      && BehaviorOf(p) == BehaviorOf(a) && p.place.slot == a.place.slot
      && p.position == o.position
      && (Engaged(p.sentry.state) ==> !Beyond(leash, p.position, p.place.anchor))
      && (Engaged(p.sentry.state) && !Engaged(a.sentry.state) ==> p.place.anchor == o.position)
      && (Engaged(a.sentry.state) && Beyond(leash, o.position, a.place.anchor) ==> p.sentry.state == Return)
      && (Engaged(a.sentry.state) && !Beyond(leash, o.position, a.place.anchor) ==> Engaged(p.sentry.state))
      && (a.sentry.state == Return ==> p.sentry.state == Return)
      && (a.sentry.state != Idle && a.sentry.state != Seek ==> p.place.anchor == a.place.anchor)
  {
    hide Beyond, ApplicableLeash;
    SamePlaceIsWithin(ApplicableLeash(c, BehaviorOf(a), o.visible), o.position);
  }

  lemma SettleFacts(c: Tuning, b: Behavior, a: Agent, o: Observation)
    ensures var p := Settle(c, b, a, o);
      && p.position == a.position && BehaviorOf(p) == BehaviorOf(a)
      && (Engaged(a.sentry.state) ==> p.place.anchor == a.place.anchor)
      && (Engaged(p.sentry.state) && !Engaged(a.sentry.state) ==> p.place.anchor == a.position)
      && (a.sentry.state == Return && !BackHome(c, b, a.position, a.place) ==> p.sentry.state == Return)
      && (p.place.anchor != a.place.anchor ==>
            || a.sentry.state == Idle || a.sentry.state == Seek
            || (a.sentry.state == Return && BackHome(c, b, a.position, a.place)))
  {
    hide BackHome;
  }

  lemma FightFacts(c: Tuning, b: Behavior, a: Agent, o: Observation)
    ensures var f := Fight(c, b, a, o);
      && (Engaged(f.sentry.state) ==> Engaged(a.sentry.state))
      && (!Engaged(a.sentry.state) ==> f.sentry.state == a.sentry.state)
      && (Engaged(a.sentry.state) && o.visible ==> Engaged(f.sentry.state))
  {
    hide UpdateRetreat, EndRetreat, TurnBack, LeashMeters;
  }

  /** Leash safety for one tick: still engaged at its end means within the leash of
      the anchor; and the anchor only moves where the agent came to rest first. */
  lemma TickKeepsLeash(c: Tuning, a: Agent, o: Observation)
    requires o.present
    ensures var p := ChaserTick(c, a, o); var leash := ApplicableLeash(c, BehaviorOf(a), o.visible);
      && p.position == o.position && BehaviorOf(p) == BehaviorOf(a)
      && (Engaged(p.sentry.state) ==> !Beyond(leash, p.position, p.place.anchor))
      && (Engaged(p.sentry.state) && (!Engaged(a.sentry.state) || Beyond(leash, o.position, a.place.anchor)) ==>
            p.place.anchor == o.position)
      && (Engaged(p.sentry.state) && Engaged(a.sentry.state) && !Beyond(leash, o.position, a.place.anchor) ==>
            p.place.anchor == a.place.anchor)
      && (p.place.anchor != a.place.anchor ==>
            || a.sentry.state == Idle || a.sentry.state == Seek
            || BackHome(c, BehaviorOf(a), o.position, a.place))
      && (a.sentry.state == Return && !BackHome(c, BehaviorOf(a), o.position, a.place) ==>
            p.sentry.state == Return && p.place.anchor == a.place.anchor)
  {
    hide Beyond, ApplicableLeash, Perceive, Settle, Fight, BackHome;
    var b := BehaviorOf(a);
    var seen := Perceive(c, Cooled(a), o);
    PerceiveFacts(c, Cooled(a), o);
    var settled := Settle(c, b, seen, o);
    SettleFacts(c, b, seen, o);
    FightFacts(c, b, settled, o);
    SamePlaceIsWithin(ApplicableLeash(c, b, o.visible), o.position);
    if seen.place.anchor == a.place.anchor {
      BackHomeReads(c, b, o.position, a.place, seen.place);
    }
  }

  lemma BackHomeReads(c: Tuning, b: Behavior, position: Vec3, p: Place, q: Place)
    requires p.anchor == q.anchor && p.slot == q.slot
    ensures BackHome(c, b, position, p) <==> BackHome(c, b, position, q)
  {
  }

  // ----- runs --------------------------------------------------------------------

  /** What one tick makes of the anchor of an agent it leaves engaged: the agent's position
      where a fight started, what it was where none did, and then there was one already. */
  lemma AnchorFollows(c: Tuning, a: Agent, o: Observation)
    requires o.present && Engaged(ChaserTick(c, a, o).sentry.state)
    ensures ChaserTick(c, a, o).place.anchor == if StartsFight(c, a, o) then o.position else a.place.anchor
    ensures !StartsFight(c, a, o) ==> Engaged(a.sentry.state)
  {
    hide Beyond, ApplicableLeash, Fight, BackHome;
    var b := BehaviorOf(a);
    var seen := Perceive(c, Cooled(a), o);
    SamePlaceIsWithin(ApplicableLeash(c, b, o.visible), o.position);
    FightFacts(c, b, Settle(c, b, seen, o), o);
  }

  /** A fight that was going on starts afresh only for an agent the leash has sent home and
      that is home already. */
  lemma StartsAfresh(c: Tuning, a: Agent, o: Observation)
    requires o.present && Engaged(a.sentry.state) && StartsFight(c, a, o)
    ensures Beyond(ApplicableLeash(c, BehaviorOf(a), o.visible), o.position, a.place.anchor)
    ensures BackHome(c, BehaviorOf(a), o.position, a.place)
  {
    hide Beyond, ApplicableLeash, BackHome;
    var seen := Perceive(c, Cooled(a), o);
    PerceiveFacts(c, Cooled(a), o);
    BackHomeReads(c, BehaviorOf(a), o.position, a.place, seen.place);
  }

  /** Over any run an engaged agent is anchored where its fight began. */
  lemma {:induction false} OriginIsAnchor(c: Tuning, t: Tracked, events: seq<Event>)
    requires !Engaged(t.agent.sentry.state)
    ensures AnchoredAtOrigin(Run(c, t, events))
  {
    hide ChaserTick, Beyond, ApplicableLeash, BackHome, StartsFight;
    if events != [] {
      var before := Run(c, t, events[..|events| - 1]);
      var e := events[|events| - 1];
      OriginIsAnchor(c, t, events[..|events| - 1]);
      if e.Controller? {
        if !e.o.present {
          SkippedTick(c, before.agent, e.o);
        } else if Engaged(ChaserTick(c, before.agent, e.o).sentry.state) {
          AnchorFollows(c, before.agent, e.o);
        }
      }
    }
  }

  lemma SkippedTick(c: Tuning, a: Agent, o: Observation)
    requires !o.present
    ensures var p := ChaserTick(c, a, o);
      p.sentry == a.sentry && p.place == a.place && p.position == a.position && p.role == a.role
  {
  }

  /** Over every run of an agent that starts out of a fight: whenever its controller
      has just run and left it engaged, it stands within the applicable leash of the
      point where that fight began; and a fight that was going on is still the same one,
      unless the leash had sent the agent home and it was home already. */
  lemma LeashSafety(c: Tuning, t: Tracked, events: seq<Event>, o: Observation)
    requires !Engaged(t.agent.sentry.state) && o.present
    ensures var before := Run(c, t, events); var after := Run(c, t, events + [Controller(o)]);
      Engaged(after.agent.sentry.state) ==>
        && !Beyond(ApplicableLeash(c, BehaviorOf(before.agent), o.visible), after.agent.position, after.origin)
        && (Engaged(before.agent.sentry.state)
            && !BackHome(c, BehaviorOf(before.agent), o.position, before.agent.place) ==>
            after.origin == before.origin)
  {
    hide ChaserTick, Beyond, ApplicableLeash, BackHome, StartsFight;
    var all := events + [Controller(o)];
    assert all[..|all| - 1] == events;
    OriginIsAnchor(c, t, all);
    var before := Run(c, t, events).agent;
    TickKeepsLeash(c, before, o);
    if Engaged(before.sentry.state) && StartsFight(c, before, o) {
      StartsAfresh(c, before, o);
    }
  }

  // ----- when a fight cannot be dragged along ----------------------------------------

  /** An engaged agent past its leash is sent home by that very tick, unless it is home. */
  lemma PastLeashBreaksOff(c: Tuning, a: Agent, o: Observation)
    requires o.present && Engaged(a.sentry.state)
    requires Beyond(ApplicableLeash(c, BehaviorOf(a), o.visible), o.position, a.place.anchor)
    ensures ChaserTick(c, a, o).sentry.state == Return <==> !BackHome(c, BehaviorOf(a), o.position, a.place)
    ensures o.visible && BackHome(c, BehaviorOf(a), o.position, a.place) ==>
      Engaged(ChaserTick(c, a, o).sentry.state) && ChaserTick(c, a, o).place.anchor == o.position
  {
    hide Beyond, ApplicableLeash, Perceive, Settle, Fight, BackHome;
    var b := BehaviorOf(a);
    var seen := Perceive(c, Cooled(a), o);
    PerceiveFacts(c, Cooled(a), o);
    BackHomeReads(c, b, o.position, a.place, seen.place);
    SettleFromReturn(c, b, seen, o);
    FightFacts(c, b, Settle(c, b, seen, o), o);
  }

  lemma SettleFromReturn(c: Tuning, b: Behavior, a: Agent, o: Observation)
    requires a.sentry.state == Return
    ensures Settle(c, b, a, o).sentry.state == Return <==> !BackHome(c, b, a.position, a.place)
    ensures o.visible && BackHome(c, b, a.position, a.place) ==>
      Engaged(Settle(c, b, a, o).sentry.state) && Settle(c, b, a, o).place.anchor == a.position
    ensures !o.visible ==> !Engaged(Settle(c, b, a, o).sentry.state)
  {
    hide BackHome;
  }

  /** No tick of an agent so behaving moves the anchor of a fight that goes on. */
  ghost predicate HoldsFast(c: Tuning, b: Behavior) {
    forall a: Agent, o: Observation :: KeepsAnchor(c, b, a, o)
  }

  predicate KeepsAnchor(c: Tuning, b: Behavior, a: Agent, o: Observation) {
    BehaviorOf(a) == b && o.present && Engaged(a.sentry.state) && Engaged(ChaserTick(c, a, o).sentry.state) ==>
      ChaserTick(c, a, o).place.anchor == a.place.anchor
  }

  /** Outside a squad a leash stops a fight from being dragged along if and only if it is no
      shorter than max(resume, 1 m). Shorter, and the agent past it counts as home where it
      is, and fights on with the leash laid there. */
  lemma LeashHoldsFast(c: Tuning, b: Behavior)
    requires b != SquadMember && LeashMeters(c, b) > 0.0
    ensures HoldsFast(c, b) <==> HomeRadius(c, b) <= LeashMeters(c, b)
  {
    if HomeRadius(c, b) <= LeashMeters(c, b) {
      forall a: Agent, o: Observation ensures KeepsAnchor(c, b, a, o) {
        LongEnough(c, b, a, o);
      }
    } else {
      var a, o := Dragged(c, b);
      assert !KeepsAnchor(c, b, a, o);
    }
  }

  lemma LongEnough(c: Tuning, b: Behavior, a: Agent, o: Observation)
    requires b != SquadMember && LeashMeters(c, b) > 0.0 && HomeRadius(c, b) <= LeashMeters(c, b)
    ensures KeepsAnchor(c, b, a, o)
  {
    hide ChaserTick, HomeRadius, LeashMeters, StartsFight, Horizontal2;
    if BehaviorOf(a) == b && o.present && Engaged(a.sentry.state) && Engaged(ChaserTick(c, a, o).sentry.state) {
      AnchorFollows(c, a, o);
      if StartsFight(c, a, o) {
        StartsAfresh(c, a, o);
        WithinFurther(o.position, a.place.anchor, HomeRadius(c, b), LeashMeters(c, b));
      }
    }
  }

  lemma WithinFurther(p: Vec3, q: Vec3, r: real, s: real)
    requires Within(p, q, r) && r <= s
    ensures Within(p, q, s)
  {
    SquareOrder(r, s);
  }

  /** A fight caught between a short leash and the radius that counts as home. */
  lemma Dragged(c: Tuning, b: Behavior) returns (a: Agent, o: Observation)
    requires b != SquadMember && 0.0 < LeashMeters(c, b) < HomeRadius(c, b)
    ensures !KeepsAnchor(c, b, a, o)
  {
    var anchor, far := Vec3(0.0, 0.0, 0.0), Vec3(HomeRadius(c, b), 0.0, 0.0);
    a := Agent(Sentry(Chasing, 0, 0, 1, true, far, false, false), far, Place(anchor, anchor, false), RoleFor(b), NoPost,
               Backing(false, false, 0, 0, 0, anchor, 0, 0), Burst(0, 0, 0, 0, 0));
    o := Observation(true, far, true, 1, far, false, far, map[], false, false, false, [], false, 0, 0, false);
    assert BehaviorOf(a) == b && ApplicableLeash(c, b, true) == LeashMeters(c, b);
    hide ChaserTick, HomeRadius, LeashMeters, Beyond, Within;
    BetweenLeashAndHome(LeashMeters(c, b), HomeRadius(c, b), anchor, far);
    PastLeashBreaksOff(c, a, o);
  }

  lemma BetweenLeashAndHome(leash: real, home: real, anchor: Vec3, far: Vec3)
    requires 0.0 < leash < home && anchor == Vec3(0.0, 0.0, 0.0) && far == Vec3(home, 0.0, 0.0)
    ensures Beyond(leash, far, anchor) && Within(far, anchor, home) && far != anchor
  {
    SquareOrder(leash, home);
    assert Horizontal2(far, anchor) == home * home;
  }

  function RoleFor(b: Behavior): Role {
    match b
    case SquadMember => SquadRole
    case Guard => GuardRole
    case Patrol => PatrolRole
    case Hunter => HunterRole
    case LockTarget => LockTargetRole
  }

  // ----- the way back ------------------------------------------------------------

  /** What ends a Return: its controller finding it home, the squad's return pass giving up
      on it, or an order it may obey. */
  predicate Releases(c: Tuning, a: Agent, e: Event) {
    match e
    case Controller(o) => o.present && BackHome(c, BehaviorOf(a), o.position, a.place)
    case ReturnGivenUp => a.place.inSquad
    case Commanded(role, post) => MaySwitch(a, role, post)
    case _ => false
  }

  /** Whatever it sees and whatever hits it: a Return ends on exactly these events, and its
      anchor stays put until one of them. */
  lemma ReturnEndsExactly(c: Tuning, a: Agent, e: Event)
    requires a.sentry.state == Return
    ensures Next(c, a, e).sentry.state == Return <==> !Releases(c, a, e)
    ensures !Releases(c, a, e) ==> Next(c, a, e).place.anchor == a.place.anchor
  {
    hide ChaserTick, BackHome;
    if e.Controller? {
      if e.o.present { HomeEndsReturn(c, a, e.o); } else { SkippedTick(c, a, e.o); }
    }
  }

  lemma HomeEndsReturn(c: Tuning, a: Agent, o: Observation)
    requires o.present && a.sentry.state == Return
    ensures ChaserTick(c, a, o).sentry.state == Return <==> !BackHome(c, BehaviorOf(a), o.position, a.place)
    ensures ChaserTick(c, a, o).sentry.state == Return ==> ChaserTick(c, a, o).place.anchor == a.place.anchor
  {
    hide Beyond, ApplicableLeash, Perceive, Settle, Fight, BackHome;
    TickKeepsLeash(c, a, o);
    var b := BehaviorOf(a);
    var seen := Perceive(c, Cooled(a), o);
    PerceiveFacts(c, Cooled(a), o);
    BackHomeReads(c, b, o.position, a.place, seen.place);
    SettleFromReturn(c, b, seen, o);
    FightFacts(c, b, Settle(c, b, seen, o), o);
  }

  /** So over any run: an agent that broke off is still returning to the same anchor, unless
      some event of the run released it. */
  lemma {:induction false} NoResumeUntilReleased(c: Tuning, t: Tracked, events: seq<Event>)
    requires t.agent.sentry.state == Return
    ensures
      || (Run(c, t, events).agent.sentry.state == Return
        && Run(c, t, events).agent.place.anchor == t.agent.place.anchor)
      || exists i :: ReleasedAt(c, t, events, i)
  {
    hide Next, Releases;
    if events != [] {
      var n := |events| - 1;
      var prior := events[..n];
      NoResumeUntilReleased(c, t, prior);
      var before := Run(c, t, prior).agent;
      if i :| ReleasedAt(c, t, prior, i) {
        assert prior[..i] == events[..i];
        assert ReleasedAt(c, t, events, i);
      } else if Releases(c, before, events[n]) {
        assert ReleasedAt(c, t, events, n);
      } else {
        ReturnEndsExactly(c, before, events[n]);
      }
    }
  }

  /** The event `i` releases a Return that nothing before it released. */
  ghost predicate ReleasedAt(c: Tuning, t: Tracked, events: seq<Event>, i: int) {
    && 0 <= i < |events|
    && Run(c, t, events[..i]).agent.sentry.state == Return
    && Run(c, t, events[..i]).agent.place.anchor == t.agent.place.anchor
    && Releases(c, Run(c, t, events[..i]).agent, events[i])
  }

  predicate JoinsSquad(e: Event) {
    e.Placed? || (e.RoleChanged? && e.role == SquadRole)
  }

  lemma {:induction false} StaysOut(c: Tuning, t: Tracked, events: seq<Event>)
    requires BehaviorOf(t.agent) != SquadMember
    requires forall e :: e in events ==> !JoinsSquad(e)
    ensures BehaviorOf(Run(c, t, events).agent) != SquadMember
  {
    hide ChaserTick;
    if events != [] {
      var prior, e := events[..|events| - 1], events[|events| - 1];
      assert forall x :: x in prior ==> x in events;
      StaysOut(c, t, prior);
      assert !JoinsSquad(e);
      if e.Controller? {
        TickKeepsBehavior(c, Run(c, t, prior).agent, e.o);
      }
    }
  }

  lemma TickKeepsBehavior(c: Tuning, a: Agent, o: Observation)
    ensures BehaviorOf(ChaserTick(c, a, o)) == BehaviorOf(a)
  {
    if o.present { TickKeepsLeash(c, a, o); } else { SkippedTick(c, a, o); }
  }

  /** The controller finds it within max(resume, 1 m) of the anchor, by the leash it is then
      on, or an order it obeys reaches it. */
  ghost predicate HomeOrOrdered(c: Tuning, a: Agent, anchor: Vec3, e: Event) {
    || (e.Controller? && e.o.present && Within(e.o.position, anchor, HomeRadius(c, BehaviorOf(a))))
    || (e.Commanded? && MaySwitch(a, e.role, e.post))
  }

  /** Outside a squad there are just the two: an agent that broke off is still returning to
      the same anchor, unless some tick of the run found it within max(resume, 1 m) of that
      anchor or some order it may obey reached it on the way. */
  lemma NoResumeBeforeHome(c: Tuning, t: Tracked, events: seq<Event>)
    requires t.agent.sentry.state == Return && BehaviorOf(t.agent) != SquadMember
    requires forall e :: e in events ==> !JoinsSquad(e)
    ensures
      || (Run(c, t, events).agent.sentry.state == Return
        && Run(c, t, events).agent.place.anchor == t.agent.place.anchor)
      || exists i ::
        0 <= i < |events| && HomeOrOrdered(c, Run(c, t, events[..i]).agent, t.agent.place.anchor, events[i])
  {
    hide Run, HomeRadius, Within, MaySwitch;
    NoResumeUntilReleased(c, t, events);
    if i :| ReleasedAt(c, t, events, i) {
      assert forall x :: x in events[..i] ==> x in events;
      StaysOut(c, t, events[..i]);
      assert HomeOrOrdered(c, Run(c, t, events[..i]).agent, t.agent.place.anchor, events[i]);
    }
  }

  /** The exception is real: an order lets an agent go wherever it stands, near its anchor or
      not, and a target it then sees is engaged on its next tick, anchored there. */
  lemma OrderReleases(c: Tuning, a: Agent, role: Role, post: Post, o: Observation)
    requires a.sentry.state == Return && MaySwitch(a, role, post)
    requires o.present && o.visible
    ensures var ordered := Next(c, a, Commanded(role, post));
      && ordered.sentry.state == Idle && ordered.sentry.target == 0 && ordered.place == a.place && ordered.role == role
      && Engaged(ChaserTick(c, ordered, o).sentry.state)
      && ChaserTick(c, ordered, o).place.anchor == o.position
  {
    hide Beyond, ApplicableLeash, Fight, BackHome;
    var ordered := Next(c, a, Commanded(role, post));
    var b := BehaviorOf(ordered);
    var seen := Perceive(c, Cooled(ordered), o);
    PerceiveFacts(c, Cooled(ordered), o);
    SamePlaceIsWithin(ApplicableLeash(c, b, o.visible), o.position);
    FightFacts(c, b, Settle(c, b, seen, o), o);
  }

  /** And once home nothing holds it back: a target in sight is engaged on the very
      tick it arrives, with the leash anchored there. */
  lemma ResumesAtHome(c: Tuning, a: Agent, o: Observation)
    requires o.present && o.visible
    requires a.sentry.state == Return && BackHome(c, BehaviorOf(a), o.position, a.place)
    ensures Engaged(ChaserTick(c, a, o).sentry.state) && ChaserTick(c, a, o).place.anchor == o.position
  {
    hide Beyond, ApplicableLeash, Perceive, Settle, Fight, BackHome;
    var b := BehaviorOf(a);
    var seen := Perceive(c, Cooled(a), o);
    PerceiveFacts(c, Cooled(a), o);
    BackHomeReads(c, b, o.position, a.place, seen.place);
    SettleFromReturn(c, b, seen, o);
    FightFacts(c, b, Settle(c, b, seen, o), o);
  }
}
