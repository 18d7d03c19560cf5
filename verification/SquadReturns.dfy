/** A squad member's way back: how long it may refuse to fight on the way, and what gives a
    Return up. */
module SquadReturns {
  import opened Geometry
  import opened Engagement
  import opened AgentEvents
  import opened ChaserController

  const AWAY: real := 3.0
  const PROGRESS: real := 0.5
  const STALLED_TICKS: nat := 90
  const LONGEST_RETURN: nat := 300
  const STRANDED_TICKS: nat := 300

  /** What a member on its way back remembers of it. `progress` is where it last got anywhere. */
  datatype WayBack = WayBack(returning: bool, ticks: nat, progress: Vec3, stalled: nat, stranded: nat)

  predicate IsAway(a: Agent) {
    a.sentry.state == Return || (a.sentry.state == Idle && !Within(a.position, a.place.slot, AWAY))
  }

  /** A way back that has only just begun starts from nothing. */
  function Begun(w: WayBack, position: Vec3): WayBack {
    if w.returning then w else WayBack(true, 0, position, 0, 0)
  }

  /** One more pass on the way: standing about with its back to the wall is no stalling. */
  function Walked(w: WayBack, position: Vec3): WayBack {
    var rested := if w.stranded > 0 then w.(stranded := w.stranded - 1, progress := position, stalled := 0) else w;
    var moved := if CloserThan(position, rested.progress, PROGRESS) then rested.(stalled := rested.stalled + 1)
                 else rested.(progress := position, stalled := 0);
    moved.(ticks := moved.ticks + 1)
  }

  /** A pass over one member; `routed` is whether it finds it a path. */
  function Pass(w: WayBack, a: Agent, routed: bool): WayBack {
    if !IsAway(a) then w.(returning := false, stranded := 0)
    else
      var walked := Walked(Begun(w, a.position), a.position);
      var left := if walked.stalled >= STALLED_TICKS then walked.(stalled := 0, stranded := STRANDED_TICKS) else walked;
      if routed then left.(stranded := 0) else left
  }

  predicate GivesUp(w: WayBack, a: Agent) {
    && a.sentry.state == Return
    && var walked := Walked(Begun(w, a.position), a.position);
       walked.stalled >= STALLED_TICKS || walked.ticks >= LONGEST_RETURN
  }

  function AfterPass(c: Tuning, w: WayBack, a: Agent): Agent {
    if GivesUp(w, a) then Next(c, a, ReturnGivenUp) else a
  }

  // ----- in place --------------------------------------------------------------------------

  class SquadReturn {
    var way: WayBack

    constructor ()
      ensures way == WayBack(false, 0, Vec3(0.0, 0.0, 0.0), 0, 0)
    {
      way := WayBack(false, 0, Vec3(0.0, 0.0, 0.0), 0, 0);
    }

    method Update(c: Tuning, agent: AgentState, routed: bool)
      requires agent.place.inSquad
      modifies this, agent`sentry
      ensures way == Pass(old(way), old(agent.Snapshot()), routed)
      ensures agent.Snapshot() == AfterPass(c, old(way), old(agent.Snapshot()))
    {
      hide Within, CloserThan;
      var inReturn := agent.sentry.state == Return;
      if !inReturn && !(agent.sentry.state == Idle && !Within(agent.position, agent.place.slot, AWAY)) {
        way := way.(returning := false, stranded := 0);
        return;
      }
      if !way.returning {
        way := WayBack(true, 0, agent.position, 0, 0);
      }
      if way.stranded > 0 {
        way := way.(stranded := way.stranded - 1, progress := agent.position, stalled := 0);
      }
      if !CloserThan(agent.position, way.progress, PROGRESS) {
        way := way.(progress := agent.position, stalled := 0);
      } else {
        way := way.(stalled := way.stalled + 1);
      }
      way := way.(ticks := way.ticks + 1);
      var stalled := way.stalled >= STALLED_TICKS;
      if inReturn && (stalled || way.ticks >= LONGEST_RETURN) {
        agent.TransitionTo(Idle);
      }
      if stalled {
        way := way.(stalled := 0, stranded := STRANDED_TICKS);
      }
      if routed {
        way := way.(stranded := 0);
      }
    }
  }

  // ----- what a pass comes to ------------------------------------------------------------------

  /** Less than half a metre over the ground from where it last got anywhere. */
  predicate NoFurther(w: WayBack, position: Vec3, dx: real, dz: real) {
    dx == w.progress.x - position.x && dz == w.progress.z - position.z && dx * dx + dz * dz < 0.25
  }

  lemma NoFurtherIs(w: WayBack, position: Vec3, dx: real, dz: real)
    requires dx == w.progress.x - position.x && dz == w.progress.z - position.z
    ensures CloserThan(position, w.progress, PROGRESS) <==> NoFurther(w, position, dx, dz)
  {
    HorizontalIs(position, w.progress, dx, dz);
    hide Horizontal2;
  }

  lemma HereIsNoFurther(position: Vec3)
    ensures CloserThan(position, position, PROGRESS)
  {
  }

  /** One that is where it belongs, or in a fight, is on no way back; what it remembers of the last one stays but for
      the wall it had its back to. */
  lemma NotAwayPass(w: WayBack, a: Agent, routed: bool, dx: real, dz: real)
    requires dx == a.place.slot.x - a.position.x && dz == a.place.slot.z - a.position.z
    requires a.sentry.state != Return && (a.sentry.state == Idle ==> dx * dx + dz * dz <= 9.0)
    ensures Pass(w, a, routed) == WayBack(false, w.ticks, w.progress, w.stalled, 0) && !GivesUp(w, a)
  {
    HorizontalIs(a.position, a.place.slot, dx, dz);
    hide Horizontal2;
  }

  /** The first pass on a way back starts counting where it finds it. */
  lemma FirstPass(w: WayBack, a: Agent, routed: bool, dx: real, dz: real)
    requires dx == a.place.slot.x - a.position.x && dz == a.place.slot.z - a.position.z && !w.returning
    requires a.sentry.state == Return || (a.sentry.state == Idle && dx * dx + dz * dz > 9.0)
    ensures Pass(w, a, routed) == WayBack(true, 1, a.position, 1, 0) && !GivesUp(w, a)
  {
    HorizontalIs(a.position, a.place.slot, dx, dz);
    HereIsNoFurther(a.position);
    hide Horizontal2, CloserThan;
  }

  /** Every later one counts, and counts as stalled where it has got no further; ninety of those turn its back to the
      wall for three hundred, unless it finds a path. With its back to the wall nothing counts as stalled for long. */
  lemma LaterPass(w: WayBack, a: Agent, routed: bool, dx: real, dz: real, ax: real, az: real)
    requires ax == a.place.slot.x - a.position.x && az == a.place.slot.z - a.position.z && w.returning
    requires dx == w.progress.x - a.position.x && dz == w.progress.z - a.position.z
    requires a.sentry.state == Return || (a.sentry.state == Idle && ax * ax + az * az > 9.0)
    ensures var p := Pass(w, a, routed);
      var stalled := if w.stranded > 0 then 1 else if dx * dx + dz * dz < 0.25 then w.stalled + 1 else 0;
      && p.returning && p.ticks == w.ticks + 1
      && p.stalled == (if stalled >= 90 then 0 else stalled)
      && p.progress == (if w.stranded == 0 && dx * dx + dz * dz < 0.25 then w.progress else a.position)
      && p.stranded == (if routed then 0 else if stalled >= 90 then 300
                        else if w.stranded > 0 then w.stranded - 1 else 0)
      && (GivesUp(w, a) <==> a.sentry.state == Return && (stalled >= 90 || w.ticks + 1 >= 300))
  {
    HorizontalIs(a.position, a.place.slot, ax, az);
    NoFurtherIs(w, a.position, dx, dz);
    HereIsNoFurther(a.position);
    hide Horizontal2, CloserThan;
  }

  /** One that gives up is idle there, and what it was at is over. */
  lemma GivenUp(c: Tuning, w: WayBack, a: Agent)
    requires a.place.inSquad
    ensures var p := AfterPass(c, w, a);
      if GivesUp(w, a) then
        && p == a.(sentry := p.sentry)
        && p.sentry == a.sentry.(state := Idle, stateTicks := 0, lostTicks := 0, bySquad := false)
      else p == a
  {
  }

  // ----- over a run ---------------------------------------------------------------------------

  /** What happens to a member between one pass and the next, and whether that finds a path. */
  datatype Leg = Leg(events: seq<Event>, routed: bool)

  datatype Journey = Journey(agent: Agent, way: WayBack)

  function After(c: Tuning, a: Agent, events: seq<Event>): Agent {
    if events == [] then a else Next(c, After(c, a, events[..|events| - 1]), events[|events| - 1])
  }

  function Onward(c: Tuning, j: Journey, leg: Leg): Journey {
    var a := After(c, j.agent, leg.events);
    Journey(AfterPass(c, j.way, a), Pass(j.way, a, leg.routed))
  }

  function Travelled(c: Tuning, j: Journey, legs: seq<Leg>): Journey {
    if legs == [] then j else Onward(c, Travelled(c, j, legs[..|legs| - 1]), legs[|legs| - 1])
  }

  lemma {:induction false} StaysInSquad(c: Tuning, a: Agent, events: seq<Event>)
    requires a.place.inSquad
    ensures After(c, a, events).place.inSquad
  {
    if events != [] {
      var before, e := After(c, a, events[..|events| - 1]), events[|events| - 1];
      StaysInSquad(c, a, events[..|events| - 1]);
      if e.Controller? {
        TickKeepsSquad(c, before, e.o);
      }
    }
  }

  lemma TickKeepsSquad(c: Tuning, a: Agent, o: Observation)
    ensures ChaserTick(c, a, o).place.inSquad == a.place.inSquad
  {
    hide Fight, Perceive, Settle;
    if o.present {
      SeenKeepsSquad(c, Cooled(a), o);
      SettledKeepsSquad(c, BehaviorOf(a), Perceive(c, Cooled(a), o), o);
    }
  }

  lemma SeenKeepsSquad(c: Tuning, a: Agent, o: Observation)
    ensures Perceive(c, a, o).place.inSquad == a.place.inSquad
  {
  }

  lemma SettledKeepsSquad(c: Tuning, b: Behavior, a: Agent, o: Observation)
    ensures Settle(c, b, a, o).place.inSquad == a.place.inSquad
  {
    hide BackHome;
  }

  /** Some pass of the run left the member out of Return. */
  ghost predicate OutOfReturn(c: Tuning, j: Journey, legs: seq<Leg>) {
    exists k :: 0 < k <= |legs| && OutAt(c, j, legs, k)
  }

  ghost predicate OutAt(c: Tuning, j: Journey, legs: seq<Leg>, k: int)
    requires 0 <= k <= |legs|
  {
    Travelled(c, j, legs[..k]).agent.sentry.state != Return
  }

  /** As long as no pass has, every one of them has counted. */
  lemma {:induction false} PassesCount(c: Tuning, j: Journey, legs: seq<Leg>)
    requires j.agent.place.inSquad && !OutOfReturn(c, j, legs)
    ensures var end := Travelled(c, j, legs);
      && end.agent.place.inSquad
      && (legs != [] ==> end.way.returning && |legs| <= end.way.ticks < LONGEST_RETURN)
  {
    hide After, AfterPass, Pass;
    if legs != [] {
      var n := |legs| - 1;
      var prior, before := legs[..n], Travelled(c, j, legs[..n]);
      forall k | 0 < k <= n ensures !OutAt(c, j, prior, k) {
        assert prior[..k] == legs[..k];
        assert !OutAt(c, j, legs, k);
      }
      PassesCount(c, j, prior);
      assert legs[..|legs|] == legs;
      assert !OutAt(c, j, legs, |legs|);
      StaysInSquad(c, before.agent, legs[n].events);
      StillInReturn(c, before.way, After(c, before.agent, legs[n].events), legs[n].routed);
    }
  }

  /** A pass that leaves it in Return has counted, and not three hundred. */
  lemma StillInReturn(c: Tuning, w: WayBack, a: Agent, routed: bool)
    requires a.place.inSquad && AfterPass(c, w, a).sentry.state == Return
    ensures AfterPass(c, w, a).place.inSquad
    ensures var p := Pass(w, a, routed);
      p.returning && p.ticks == (if w.returning then w.ticks + 1 else 1) && p.ticks < LONGEST_RETURN
  {
    hide Within, CloserThan, ChaserTick;
  }

  /** Refusing to fight has an end: whatever happens on the way, some pass out of any three
      hundred leaves the member out of Return, home or given up. */
  lemma ReturnEnds(c: Tuning, j: Journey, legs: seq<Leg>)
    requires j.agent.place.inSquad && |legs| >= LONGEST_RETURN
    ensures OutOfReturn(c, j, legs)
  {
    if !OutOfReturn(c, j, legs) {
      PassesCount(c, j, legs);
    }
  }

  /** It need not take so long: one that gets nowhere gives up by the ninetieth pass. */
  lemma {:induction false} StallEnds(w: WayBack, a: Agent, positions: seq<Vec3>)
    requires a.sentry.state == Return && w.returning && w.stranded == 0 && |positions| > 0
    requires w.stalled + |positions| >= STALLED_TICKS
    requires forall p :: p in positions ==> CloserThan(p, w.progress, PROGRESS)
    ensures exists k :: 0 <= k < |positions| && GivesUp(StoodAt(w, positions[..k]), a.(position := positions[k]))
  {
    var last := |positions| - 1;
    forall k | 0 <= k <= last ensures StoodAt(w, positions[..k]) == w.(ticks := w.ticks + k, stalled := w.stalled + k) {
      assert forall p :: p in positions[..k] ==> p in positions;
      StoodStill(w, positions[..k]);
    }
    assert positions[last] in positions;
    assert GivesUp(StoodAt(w, positions[..last]), a.(position := positions[last]));
  }

  function StoodAt(w: WayBack, positions: seq<Vec3>): WayBack {
    if positions == [] then w else Walked(StoodAt(w, positions[..|positions| - 1]), positions[|positions| - 1])
  }

  lemma {:induction false} StoodStill(w: WayBack, positions: seq<Vec3>)
    requires w.stranded == 0 && forall p :: p in positions ==> CloserThan(p, w.progress, PROGRESS)
    ensures StoodAt(w, positions) == w.(ticks := w.ticks + |positions|, stalled := w.stalled + |positions|)
  {
    hide CloserThan;
    if positions != [] {
      assert forall p :: p in positions[..|positions| - 1] ==> p in positions;
      assert positions[|positions| - 1] in positions;
      StoodStill(w, positions[..|positions| - 1]);
    }
  }
}
