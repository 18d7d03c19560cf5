/** A squad stops fighting when there is nobody to fight: once no member sees a
    target or is hit again, the members passing alerts between them cannot keep it
    holding, and it is over within a bound computed from where they stand. */
module SquadQuiescence {
  import opened Geometry
  import opened Engagement
  import opened AgentEvents

  const AWAY_FROM_SLOT: real := 3.0

  datatype Member = Member(id: nat, agent: Agent)

  /** What one round of the server brings one member. */
  datatype Input = Input(survives: bool, position: Vec3, slot: Vec3, givenUp: bool, o: Observation)

  type RoundInput = nat -> Input

  // ----- one round ------------------------------------------------------------------

  /** An alert passed on by a squad-mate, with nothing of the agent's own behind it. */
  predicate Hearsay(s: Sentry) {
    s.bySquad && s.target == 0
  }

  predicate Alerting(a: Agent) {
    Engaged(a.sentry.state) && a.sentry.hasAttention && !Hearsay(a.sentry)
  }

  predicate InFormation(a: Agent) {
    a.sentry.state == Idle && a.place.inSquad && Within(a.position, a.place.slot, AWAY_FROM_SLOT)
  }

  function Synced(m: Member, input: RoundInput): Member {
    m.(agent := m.agent.(position := input(m.id).position))
  }

  /** The resync: the dead are dropped, the rest are where the kernel has them. */
  function Survivors(squad: seq<Member>, input: RoundInput): seq<Member> {
    if squad == [] then []
    else if input(squad[0].id).survives then [Synced(squad[0], input)] + Survivors(squad[1..], input)
    else Survivors(squad[1..], input)
  }

  predicate Holding(squad: seq<Member>) {
    exists m :: m in squad && Engaged(m.agent.sentry.state)
  }

  /** The first member whose attention the squad turns to, or the squad's size. */
  function FirstAlerting(squad: seq<Member>): (i: nat)
    ensures i <= |squad|
    ensures i < |squad| ==> Alerting(squad[i].agent)
    ensures forall k :: 0 <= k < i ==> !Alerting(squad[k].agent)
  {
    if squad == [] || Alerting(squad[0].agent) then 0 else
      var rest := FirstAlerting(squad[1..]);
      assert forall k :: 0 < k < 1 + rest ==> squad[k] == squad[1..][k - 1];
      1 + rest
  }

  function PassAlert(squad: seq<Member>): (r: seq<Member>)
    ensures |r| == |squad|
  {
    var first := FirstAlerting(squad);
    if first == |squad| then squad
    else
      var source := squad[first].agent.sentry;
      seq(|squad|, i requires 0 <= i < |squad| => Turned(squad[i], source))
  }

  function Turned(m: Member, source: Sentry): Member {
    if InFormation(m.agent) then m.(agent := AlertedBySquad(m.agent, source.attention, source.byDamage)) else m
  }

  /** After the squad has had its say: the slot, the return pass, the controller. */
  function Driven(c: Tuning, m: Member, input: Input): Member {
    var placed := Next(c, m.agent, Placed(input.slot));
    var back := if input.givenUp then Next(c, placed, ReturnGivenUp) else placed;
    m.(agent := Next(c, back, Controller(input.o)))
  }

  /** Each member by its own template's tuning, `c` of its id. */
  function DriveAll(c: nat -> Tuning, squad: seq<Member>, input: RoundInput): (r: seq<Member>)
    ensures |r| == |squad|
  {
    seq(|squad|, i requires 0 <= i < |squad| => Driven(c(squad[i].id), squad[i], input(squad[i].id)))
  }

  function Round(c: nat -> Tuning, squad: seq<Member>, input: RoundInput): seq<Member> {
    DriveAll(c, PassAlert(Survivors(squad, input)), input)
  }

  function Rounds(c: nat -> Tuning, squad: seq<Member>, inputs: seq<RoundInput>): seq<Member>
    decreases |inputs|
  {
    if inputs == [] then squad else Rounds(c, Round(c, squad, inputs[0]), inputs[1..])
  }

  // ----- quiet ------------------------------------------------------------------------

  predicate Quiet(o: Observation) {
    o.present && !o.visible && !o.damaged
  }

  ghost predicate QuietRound(input: RoundInput) {
    forall id: nat :: Quiet(input(id).o)
  }

  /** A retreat is only ever started by a tuning that has one. */
  predicate RetreatAllowed(c: Tuning, a: Agent) {
    a.backing.active ==> c.retreat.trigger > 0.0
  }

  predicate AllAllowed(c: nat -> Tuning, squad: seq<Member>) {
    forall m :: m in squad ==> RetreatAllowed(c(m.id), m.agent)
  }

  // ----- how long an engaged agent can last on its own -----------------------------------

  function Fresh(c: Tuning): (n: nat)
    ensures n >= 1
  {
    if c.forgetTicks > 1 then c.forgetTicks else 1
  }

  function Waiting(c: Tuning, lost: nat): nat {
    if lost + 1 >= c.forgetTicks then 1 else c.forgetTicks - lost
  }

  function Turning(c: Tuning, ticks: nat): nat {
    (if ticks < TURN_LIMIT then TURN_LIMIT - ticks else 1) + 1 + c.forgetTicks
  }

  /** Ticks an agent that sees nothing can still stay engaged. */
  function Remaining(c: Tuning, a: Agent): nat {
    if !Engaged(a.sentry.state) then 0
    else if !Pursuing(a.sentry.state) then Waiting(c, a.sentry.lostTicks)
    else if !(a.backing.active && c.retreat.style == TurnAndRun) then 1 + c.forgetTicks
    else if a.backing.turning then Turning(c, a.backing.turnTicks)
    else (if a.backing.ticks < c.retreat.runTicks then c.retreat.runTicks - a.backing.ticks else 0) + 1 + Turning(c, 0)
  }

  /** Whether it could ever again give its squad somewhere to look. */
  predicate Credible(a: Agent) {
    || a.sentry.target != 0
    || (Engaged(a.sentry.state) && !(a.sentry.state == Alert && a.sentry.bySquad))
  }

  function Potential(c: Tuning, a: Agent): nat {
    if !Credible(a) then 0
    else if Engaged(a.sentry.state) then Remaining(c, a)
    else Fresh(c)
  }

  function TotalPotential(c: nat -> Tuning, squad: seq<Member>): nat {
    if squad == [] then 0 else Potential(c(squad[0].id), squad[0].agent) + TotalPotential(c, squad[1..])
  }

  /** The longest any of its members stays alert for nothing. */
  function LongestFresh(c: nat -> Tuning, squad: seq<Member>): (n: nat)
    ensures FreshWithin(c, squad, n)
  {
    if squad == [] then 0
    else
      var first, rest := Fresh(c(squad[0].id)), LongestFresh(c, squad[1..]);
      assert forall m :: m in squad <==> m == squad[0] || m in squad[1..];
      if first >= rest then first else rest
  }

  predicate FreshWithin(c: nat -> Tuning, squad: seq<Member>, n: nat) {
    forall m :: m in squad ==> Fresh(c(m.id)) <= n
  }

  /** Rounds after which a squad left alone is certainly no longer holding. */
  function Bound(c: nat -> Tuning, squad: seq<Member>): nat {
    TotalPotential(c, squad) + LongestFresh(c, squad)
  }

  // ----- one agent, one quiet tick ---------------------------------------------------------

  lemma QuietRetreat(c: Tuning, leash: real, f: Bout, o: Observation, position: Vec3, anchor: Vec3)
    requires !o.visible && f.burst.windup == 0 && Pursuing(f.sentry.state)
    requires f.backing.active && c.retreat.style == TurnAndRun && c.retreat.trigger > 0.0
    ensures var g := RunAway(c, leash, f, o, position, anchor);
      && g.sentry.target == f.sentry.target
      && ( (g.sentry.state == Search && g.sentry.lostTicks == 0 && !g.backing.active)
        || (g.sentry.state == Chasing && !g.backing.active)
        || (g.sentry.state == Chasing && g.backing.active && g.backing.turning
            && Turning(c, g.backing.turnTicks)
              < (if f.backing.turning then Turning(c, f.backing.turnTicks) else 1 + Turning(c, 0)))
        || (g.sentry.state == Chasing && g.backing.active && !g.backing.turning && !f.backing.turning
            && f.backing.ticks < c.retreat.runTicks && g.backing.ticks == f.backing.ticks + 1))
  {
    hide CloserThan, Stalled, ChooseHeading;
  }

  lemma QuietFight(c: Tuning, a: Agent, o: Observation)
    requires !o.visible && RetreatAllowed(c, a)
    ensures var f := Fight(c, SquadMember, a, o); var p := WithBout(a, f);
      && RetreatAllowed(c, p)
      && (Pursuing(a.sentry.state) ==>
            || (Engaged(p.sentry.state) && Remaining(c, p) < Remaining(c, a)
                && p.sentry.target == a.sentry.target && p.sentry.state != Alert)
            || (p.sentry.state == Return && p.sentry.target == 0))
      && (a.sentry.state == Search ==>
            || (p.sentry == a.sentry && a.sentry.lostTicks < c.forgetTicks)
            || (p.sentry.state == Return && p.sentry.target == 0))
      && (!Pursuing(a.sentry.state) && a.sentry.state != Search ==> p.sentry == a.sentry)
  {
    hide RunAway;
    var ready := DropWindup(a, o);
    if Pursuing(a.sentry.state) && a.backing.active && c.retreat.style == TurnAndRun {
      QuietRetreat(c, LeashMeters(c, SquadMember), ready, o, a.position, a.place.anchor);
    }
  }

  lemma QuietTick(c: Tuning, a: Agent, o: Observation)
    requires Quiet(o) && a.place.inSquad && RetreatAllowed(c, a)
    ensures var p := ChaserTick(c, a, o);
      && RetreatAllowed(c, p)
      && (!Engaged(a.sentry.state) ==> !Engaged(p.sentry.state) && p.sentry.target == a.sentry.target)
      && (Engaged(a.sentry.state) ==>
            || (Engaged(p.sentry.state) && Remaining(c, p) < Remaining(c, a) && p.sentry.target == a.sentry.target)
            || (!Engaged(p.sentry.state) && p.sentry.target == 0))
      && (a.sentry.state == Alert && a.sentry.bySquad && Engaged(p.sentry.state) ==>
            p.sentry.state == Alert && p.sentry.bySquad)
  {
    hide Beyond, ApplicableLeash, BackHome, Fight;
    var seen := Perceive(c, Cooled(a), o);
    var settled := Settle(c, SquadMember, seen, o);
    QuietFight(c, settled, o);
  }

  // ----- the squad, one quiet round ----------------------------------------------------------

  predicate CredibleFight(squad: seq<Member>) {
    exists m :: m in squad && Engaged(m.agent.sentry.state) && Credible(m.agent)
  }

  /** One member over one quiet round, told apart by whether the squad alerted it. */
  lemma MemberRound(c: Tuning, m: Member, input: Input)
    requires Quiet(input.o) && RetreatAllowed(c, m.agent)
    ensures var p := Driven(c, m, input).agent; var a := m.agent;
      && RetreatAllowed(c, p)
      && Potential(c, p) <= Potential(c, a)
      && (Engaged(a.sentry.state) && Credible(a) ==> Potential(c, p) < Potential(c, a))
      && (Engaged(p.sentry.state) ==> Engaged(a.sentry.state) && Remaining(c, p) < Remaining(c, a))
      && (!Credible(a) ==> !Credible(p))
  {
    hide ChaserTick;
    var placed := Next(c, m.agent, Placed(input.slot));
    var back := if input.givenUp then Next(c, placed, ReturnGivenUp) else placed;
    assert RetreatAllowed(c, back);
    QuietTick(c, back, input.o);
  }

  /** Alerting an idle member costs it nothing it did not already have. */
  lemma TurnedPotential(c: Tuning, m: Member, source: Sentry)
    ensures var p := Turned(m, source).agent;
      && Potential(c, p) <= Potential(c, m.agent)
      && (Engaged(m.agent.sentry.state) ==> p == m.agent)
      && (!Credible(m.agent) ==> !Credible(p))
      && (Engaged(p.sentry.state) && !Engaged(m.agent.sentry.state) ==> Remaining(c, p) <= Fresh(c))
      && (RetreatAllowed(c, m.agent) ==> RetreatAllowed(c, p))
  {
  }

  lemma {:induction false} SurvivorsPotential(c: nat -> Tuning, squad: seq<Member>, input: RoundInput)
    requires AllAllowed(c, squad)
    ensures var left := Survivors(squad, input);
      && TotalPotential(c, left) <= TotalPotential(c, squad)
      && (CredibleFight(squad) && !CredibleFight(left) ==> TotalPotential(c, left) < TotalPotential(c, squad))
      && (CredibleFight(left) ==> CredibleFight(squad))
      && AllAllowed(c, left)
  {
    if squad != [] {
      var first := squad[0];
      var rest := Survivors(squad[1..], input);
      assert forall m :: m in squad <==> m == first || m in squad[1..];
      SurvivorsPotential(c, squad[1..], input);
      FightingHasPotential(c(first.id), first.agent);
      SyncedFacts(c(first.id), first, input);
      hide Potential, Credible, RetreatAllowed, Synced;
      if input(first.id).survives {
        var left := [Synced(first, input)] + rest;
        assert left[1..] == rest;
        assert forall m :: m in left <==> m == Synced(first, input) || m in rest;
      }
    }
  }

  lemma SyncedFacts(c: Tuning, m: Member, input: RoundInput)
    ensures var s := Synced(m, input).agent;
      && s.sentry == m.agent.sentry && Potential(c, s) == Potential(c, m.agent)
      && Credible(s) == Credible(m.agent) && RetreatAllowed(c, s) == RetreatAllowed(c, m.agent)
  {
  }

  lemma FightingHasPotential(c: Tuning, a: Agent)
    ensures Engaged(a.sentry.state) && Credible(a) ==> Potential(c, a) >= 1
    ensures Engaged(a.sentry.state) <==> Remaining(c, a) >= 1
    ensures Engaged(a.sentry.state) && !Credible(a) ==> Remaining(c, a) <= Fresh(c)
  {
  }

  lemma {:induction false} PointwisePotential(c: nat -> Tuning, before: seq<Member>, after: seq<Member>)
    requires SameIds(before, after)
    requires forall i :: 0 <= i < |before| ==> MemberPotential(c, after[i]) <= MemberPotential(c, before[i])
    ensures TotalPotential(c, after) <= TotalPotential(c, before)
    ensures (exists i :: 0 <= i < |before| && MemberPotential(c, after[i]) < MemberPotential(c, before[i])) ==>
      TotalPotential(c, after) < TotalPotential(c, before)
  {
    hide Potential;
    if before != [] {
      forall i | 0 <= i < |before[1..]|
        ensures MemberPotential(c, after[1..][i]) <= MemberPotential(c, before[1..][i])
      {
        assert after[1..][i] == after[i + 1] && before[1..][i] == before[i + 1];
      }
      PointwisePotential(c, before[1..], after[1..]);
      if i :| 0 <= i < |before| && MemberPotential(c, after[i]) < MemberPotential(c, before[i]) && i > 0 {
        assert after[1..][i - 1] == after[i] && before[1..][i - 1] == before[i];
      }
    }
  }

  function MemberPotential(c: nat -> Tuning, m: Member): nat {
    Potential(c(m.id), m.agent)
  }

  predicate SameIds(before: seq<Member>, after: seq<Member>) {
    |before| == |after| && forall i :: 0 <= i < |before| ==> after[i].id == before[i].id
  }

  lemma PassAlertFacts(c: nat -> Tuning, squad: seq<Member>)
    requires AllAllowed(c, squad)
    ensures var turned := PassAlert(squad);
      && AllAllowed(c, turned)
      && TotalPotential(c, turned) <= TotalPotential(c, squad)
      && (CredibleFight(squad) ==> CredibleFight(turned))
      && (!CredibleFight(squad) ==> turned == squad)
  {
    var first := FirstAlerting(squad);
    if first < |squad| {
      assert squad[first] in squad && Credible(squad[first].agent);
      var source := squad[first].agent.sentry;
      var turned := PassAlert(squad);
      forall i | 0 <= i < |squad|
        ensures turned[i] == Turned(squad[i], source)
        ensures turned[i].id == squad[i].id && MemberPotential(c, turned[i]) <= MemberPotential(c, squad[i])
        ensures RetreatAllowed(c(turned[i].id), turned[i].agent)
      {
        assert squad[i] in squad;
        TurnedPotential(c(squad[i].id), squad[i], source);
      }
      PointwisePotential(c, squad, turned);
      TurnedPotential(c(squad[first].id), squad[first], source);
      assert turned[first] in turned && turned[first] == squad[first];
    }
  }

  lemma DriveFacts(c: nat -> Tuning, squad: seq<Member>, input: RoundInput)
    requires AllAllowed(c, squad) && QuietRound(input)
    ensures var driven := DriveAll(c, squad, input);
      && AllAllowed(c, driven)
      && TotalPotential(c, driven) <= TotalPotential(c, squad)
      && (CredibleFight(squad) ==> TotalPotential(c, driven) < TotalPotential(c, squad))
      && (CredibleFight(driven) ==> CredibleFight(squad))
      && (forall n: nat :: EndsWithin(c, squad, n) ==> EndsWithin(c, driven, if n > 0 then n - 1 else 0))
  {
    hide Driven, Potential, Credible, Remaining, RetreatAllowed, MemberStep;
    var driven := DriveAll(c, squad, input);
    forall i | 0 <= i < |squad|
      ensures driven[i].id == squad[i].id && MemberStep(c(squad[i].id), squad[i].agent, driven[i].agent)
    {
      assert squad[i] in squad;
      AsMemberStep(c(squad[i].id), squad[i], input(squad[i].id));
      DrivenId(c(squad[i].id), squad[i], input(squad[i].id));
    }
    DriveSpends(c, squad, driven);
    forall n: nat | EndsWithin(c, squad, n)
      ensures EndsWithin(c, driven, if n > 0 then n - 1 else 0)
    {
      DriveFades(c, squad, driven, n);
    }
  }

  lemma AsMemberStep(c: Tuning, m: Member, input: Input)
    requires Quiet(input.o) && RetreatAllowed(c, m.agent)
    ensures MemberStep(c, m.agent, Driven(c, m, input).agent)
  {
    MemberRound(c, m, input);
  }

  lemma DriveSpends(c: nat -> Tuning, squad: seq<Member>, driven: seq<Member>)
    requires SameIds(squad, driven)
    requires forall i :: 0 <= i < |squad| ==> MemberStep(c(squad[i].id), squad[i].agent, driven[i].agent)
    ensures AllAllowed(c, driven)
    ensures TotalPotential(c, driven) <= TotalPotential(c, squad)
    ensures CredibleFight(squad) ==> TotalPotential(c, driven) < TotalPotential(c, squad)
    ensures CredibleFight(driven) ==> CredibleFight(squad)
  {
    hide Potential, Credible, Remaining, RetreatAllowed;
    forall i | 0 <= i < |squad| ensures MemberPotential(c, driven[i]) <= MemberPotential(c, squad[i]) {
      assert MemberStep(c(squad[i].id), squad[i].agent, driven[i].agent);
    }
    PointwisePotential(c, squad, driven);
    if CredibleFight(squad) {
      var i :| 0 <= i < |squad| && Engaged(squad[i].agent.sentry.state) && Credible(squad[i].agent);
      assert MemberStep(c(squad[i].id), squad[i].agent, driven[i].agent);
    }
    if CredibleFight(driven) {
      var i :| 0 <= i < |driven| && Engaged(driven[i].agent.sentry.state) && Credible(driven[i].agent);
      assert MemberStep(c(squad[i].id), squad[i].agent, driven[i].agent) && squad[i] in squad;
    }
  }

  lemma DriveFades(c: nat -> Tuning, squad: seq<Member>, driven: seq<Member>, n: nat)
    requires SameIds(squad, driven)
    requires forall i :: 0 <= i < |squad| ==> MemberStep(c(squad[i].id), squad[i].agent, driven[i].agent)
    requires EndsWithin(c, squad, n)
    ensures EndsWithin(c, driven, if n > 0 then n - 1 else 0)
  {
    hide Potential, Credible, Remaining, RetreatAllowed;
    forall m | m in driven ensures Remaining(c(m.id), m.agent) <= if n > 0 then n - 1 else 0 {
      var i :| 0 <= i < |driven| && driven[i] == m;
      assert MemberStep(c(squad[i].id), squad[i].agent, driven[i].agent) && squad[i] in squad;
      FightingHasPotential(c(m.id), m.agent);
    }
  }

  predicate MemberStep(c: Tuning, a: Agent, p: Agent) {
    && RetreatAllowed(c, p)
    && Potential(c, p) <= Potential(c, a)
    && (Engaged(a.sentry.state) && Credible(a) ==> Potential(c, p) < Potential(c, a))
    && (Engaged(p.sentry.state) ==> Engaged(a.sentry.state) && Remaining(c, p) < Remaining(c, a))
    && (!Credible(a) ==> !Credible(p))
  }

  predicate EndsWithin(c: nat -> Tuning, squad: seq<Member>, n: nat) {
    forall m :: m in squad ==> Remaining(c(m.id), m.agent) <= n
  }

  /** A quiet round spends potential while anyone credible is fighting, and once
      nobody is, nobody is again. */
  lemma QuietRoundFacts(c: nat -> Tuning, squad: seq<Member>, input: RoundInput)
    requires AllAllowed(c, squad) && QuietRound(input)
    ensures var next := Round(c, squad, input);
      && AllAllowed(c, next)
      && TotalPotential(c, next) <= TotalPotential(c, squad)
      && (CredibleFight(squad) ==> TotalPotential(c, next) < TotalPotential(c, squad))
      && (!CredibleFight(squad) ==> !CredibleFight(next))
      && (!CredibleFight(squad) ==>
        forall n: nat :: EndsWithin(c, squad, n) ==> EndsWithin(c, next, if n > 0 then n - 1 else 0))
  {
    hide TotalPotential, CredibleFight, PassAlert, DriveAll, AllAllowed, EndsWithin;
    var left := Survivors(squad, input);
    SurvivorsPotential(c, squad, input);
    PassAlertFacts(c, left);
    DriveFacts(c, PassAlert(left), input);
    forall n: nat | EndsWithin(c, squad, n) ensures EndsWithin(c, left, n) {
      SurvivorsEndWithin(c, squad, input, n);
    }
  }

  lemma {:induction false} SurvivorsEndWithin(c: nat -> Tuning, squad: seq<Member>, input: RoundInput, n: nat)
    requires EndsWithin(c, squad, n)
    ensures EndsWithin(c, Survivors(squad, input), n)
  {
    if squad != [] {
      assert squad[0] in squad && forall m :: m in squad[1..] ==> m in squad;
      SurvivorsEndWithin(c, squad[1..], input, n);
    }
  }

  // ----- whole runs ----------------------------------------------------------------------------

  lemma {:induction false} Fade(c: nat -> Tuning, squad: seq<Member>, inputs: seq<RoundInput>, n: nat)
    requires AllAllowed(c, squad) && !CredibleFight(squad) && EndsWithin(c, squad, n)
    requires forall input :: input in inputs ==> QuietRound(input)
    requires |inputs| >= n
    ensures !Holding(Rounds(c, squad, inputs))
    decreases |inputs|
  {
    hide Remaining;
    if inputs == [] {
      forall m | m in squad ensures !Engaged(m.agent.sentry.state) {
        FightingHasPotential(c(m.id), m.agent);
      }
    } else {
      assert inputs[0] in inputs && forall input :: input in inputs[1..] ==> input in inputs;
      QuietRoundFacts(c, squad, inputs[0]);
      Fade(c, Round(c, squad, inputs[0]), inputs[1..], if n > 0 then n - 1 else 0);
    }
  }

  /** No round brings anybody in. */
  lemma RoundKeepsFresh(c: nat -> Tuning, squad: seq<Member>, input: RoundInput, n: nat)
    requires FreshWithin(c, squad, n)
    ensures FreshWithin(c, Round(c, squad, input), n)
  {
    hide *;
    SurvivorsFresh(c, squad, input, n);
    PassAlertIds(Survivors(squad, input));
    SameIdsFresh(c, Survivors(squad, input), PassAlert(Survivors(squad, input)), n);
    DriveIds(c, PassAlert(Survivors(squad, input)), input);
    SameIdsFresh(c, PassAlert(Survivors(squad, input)), DriveAll(c, PassAlert(Survivors(squad, input)), input), n);
    RoundIs(c, squad, input);
  }

  lemma RoundIs(c: nat -> Tuning, squad: seq<Member>, input: RoundInput)
    ensures Round(c, squad, input) == DriveAll(c, PassAlert(Survivors(squad, input)), input)
  {
  }

  lemma SameIdsFresh(c: nat -> Tuning, before: seq<Member>, after: seq<Member>, n: nat)
    requires SameIds(before, after) && FreshWithin(c, before, n)
    ensures FreshWithin(c, after, n)
  {
    hide Fresh;
    forall m | m in after ensures Fresh(c(m.id)) <= n {
      var i :| 0 <= i < |after| && after[i] == m;
      assert before[i] in before;
    }
  }

  lemma DriveIds(c: nat -> Tuning, squad: seq<Member>, input: RoundInput)
    ensures SameIds(squad, DriveAll(c, squad, input))
  {
    hide Driven;
    forall i | 0 <= i < |squad| ensures DriveAll(c, squad, input)[i].id == squad[i].id {
      DrivenId(c(squad[i].id), squad[i], input(squad[i].id));
    }
  }

  lemma PassAlertIds(squad: seq<Member>)
    ensures SameIds(squad, PassAlert(squad))
  {
  }

  lemma DrivenId(c: Tuning, m: Member, input: Input)
    ensures Driven(c, m, input).id == m.id
  {
    hide ChaserTick;
  }

  lemma {:induction false} SurvivorsFresh(c: nat -> Tuning, squad: seq<Member>, input: RoundInput, n: nat)
    requires FreshWithin(c, squad, n)
    ensures FreshWithin(c, Survivors(squad, input), n)
  {
    if squad != [] {
      assert squad[0] in squad && forall m :: m in squad[1..] ==> m in squad;
      SurvivorsFresh(c, squad[1..], input, n);
    }
  }

  lemma {:induction false} QuietensWithin(c: nat -> Tuning, squad: seq<Member>, inputs: seq<RoundInput>, n: nat)
    requires AllAllowed(c, squad) && FreshWithin(c, squad, n)
    requires forall input :: input in inputs ==> QuietRound(input)
    requires |inputs| >= TotalPotential(c, squad) + n
    ensures !Holding(Rounds(c, squad, inputs))
    decreases |inputs|
  {
    hide Remaining, Potential, Credible, Fresh;
    if CredibleFight(squad) {
      var m :| m in squad && Engaged(m.agent.sentry.state);
      assert Fresh(c(m.id)) <= n;
      assert inputs[0] in inputs && forall input :: input in inputs[1..] ==> input in inputs;
      QuietRoundFacts(c, squad, inputs[0]);
      RoundKeepsFresh(c, squad, inputs[0], n);
      QuietensWithin(c, Round(c, squad, inputs[0]), inputs[1..], n);
    } else {
      forall m | m in squad ensures Remaining(c(m.id), m.agent) <= n {
        FightingHasPotential(c(m.id), m.agent);
      }
      Fade(c, squad, inputs, n);
    }
  }

  /** Left alone, a squad stops holding within its bound, and stays that way: the
      bound is a lower limit on the length of the quiet run, not its exact length.
      Its members may each have a tuning of their own. */
  lemma Quiescence(c: nat -> Tuning, squad: seq<Member>, inputs: seq<RoundInput>)
    requires AllAllowed(c, squad)
    requires forall input :: input in inputs ==> QuietRound(input)
    requires |inputs| >= Bound(c, squad)
    ensures !Holding(Rounds(c, squad, inputs))
  {
    hide TotalPotential, Rounds, Holding;
    QuietensWithin(c, squad, inputs, LongestFresh(c, squad));
  }

  // ----- the retreat invariant, over any input at all ---------------------------------------------

  lemma RetreatStaysAllowed(c: Tuning, a: Agent, o: Observation)
    requires RetreatAllowed(c, a)
    ensures RetreatAllowed(c, ChaserTick(c, a, o))
  {
    hide StepAway, CloserThan, Searching, BreakOff, Look, Hit, HitAnchor, WalkHome, Alerted, RefreshBurst;
  }

  lemma DriveStaysAllowed(c: Tuning, m: Member, input: Input)
    requires RetreatAllowed(c, m.agent)
    ensures RetreatAllowed(c, Driven(c, m, input).agent)
  {
    hide ChaserTick;
    var placed := Next(c, m.agent, Placed(input.slot));
    RetreatStaysAllowed(c, if input.givenUp then Next(c, placed, ReturnGivenUp) else placed, input.o);
  }

  lemma {:induction false} RoundsStayAllowed(c: nat -> Tuning, squad: seq<Member>, inputs: seq<RoundInput>)
    requires AllAllowed(c, squad)
    ensures AllAllowed(c, Rounds(c, squad, inputs))
    decreases |inputs|
  {
    if inputs != [] {
      hide Potential, Credible;
      var left := Survivors(squad, inputs[0]);
      SurvivorsPotential(c, squad, inputs[0]);
      PassAlertFacts(c, left);
      var turned := PassAlert(left);
      var next := DriveAll(c, turned, inputs[0]);
      hide Driven, RetreatAllowed;
      forall m | m in next ensures RetreatAllowed(c(m.id), m.agent) {
        var i :| 0 <= i < |next| && next[i] == m;
        assert turned[i] in turned;
        DriveStaysAllowed(c(turned[i].id), turned[i], inputs[0](turned[i].id));
        DrivenId(c(turned[i].id), turned[i], inputs[0](turned[i].id));
      }
      RoundsStayAllowed(c, next, inputs[1..]);
    }
  }

  lemma {:induction false} RoundsCompose(c: nat -> Tuning, squad: seq<Member>, first: seq<RoundInput>,
                                         second: seq<RoundInput>)
    ensures Rounds(c, squad, first + second) == Rounds(c, Rounds(c, squad, first), second)
    decreases |first|
  {
    if first == [] {
      assert first + second == second;
    } else {
      assert (first + second)[0] == first[0] && (first + second)[1..] == first[1..] + second;
      RoundsCompose(c, Round(c, squad, first[0]), first[1..], second);
    }
  }

  /** From any squad that starts with nobody backing off, after any history at all of
      sightings, hits, casualties and alerts: go quiet for the bound and it is over. */
  lemma QuietAfterAnyHistory(c: nat -> Tuning, squad: seq<Member>, history: seq<RoundInput>, quiet: seq<RoundInput>)
    requires forall m :: m in squad ==> !m.agent.backing.active
    requires forall input :: input in quiet ==> QuietRound(input)
    requires |quiet| >= Bound(c, Rounds(c, squad, history))
    ensures !Holding(Rounds(c, squad, history + quiet))
  {
    RoundsStayAllowed(c, squad, history);
    Quiescence(c, Rounds(c, squad, history), quiet);
    RoundsCompose(c, squad, history, quiet);
  }
}
