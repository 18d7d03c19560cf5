/** World rules: each keeps the population from falling below its target. */
module WorldRules {
  import opened AgentKernel
  import opened Counters

  /** `template` of 0 names nothing to spawn. */
  datatype Rule = Rule(target: nat, template: nat, interval: nat)

  predicate Active(rule: Rule) {
    rule.target != 0 && rule.template != 0
  }

  function MaxTarget(rules: seq<Rule>): nat {
    if rules == [] then 0
    else
      var rest, last := MaxTarget(rules[..|rules| - 1]), rules[|rules| - 1];
      if Active(last) && last.target > rest then last.target else rest
  }

  /** What the pass over the rules has done to the kernel and made of its own count. */
  ghost predicate Filling(kernel: Kernel, world: World, agents: nat, made: nat)
    reads kernel
  {
    && kernel.Valid() && Later(world, kernel.Now()) && world.alive <= kernel.alive
    && agents <= |kernel.agents| <= agents + made
  }

  lemma NothingMade(kernel: Kernel)
    requires kernel.Valid()
    ensures Filling(kernel, kernel.Now(), |kernel.agents|, 0)
  {
  }

  // ----- what one rule does --------------------------------------------------------------------

  /** As many of one template as were missing, or up to the first that was refused. */
  ghost predicate Filled(before: seq<Request>, after: seq<Request>, template: nat, missing: nat, created: nat) {
    && created <= missing && |after| == |before| + created + (if created < missing then 1 else 0)
    && after[..|before|] == before
    && forall k :: |before| <= k < |after| ==>
         after[k].template == template && (after[k].id != 0 <==> k < |before| + created)
  }

  /** Where the pass stands: each rule's wait, the population as counted, what has been asked. */
  datatype Stage = Stage(waits: seq<nat>, live: nat, requests: seq<Request>)

  /** A rule that names nothing is passed over. Any other's wait runs on, and if it is over and the
      population short of its target, what is missing is asked for; if any comes, it waits again. */
  ghost predicate RuleStep(rules: seq<Rule>, i: nat, a: Stage, b: Stage)
    requires i < |rules|
  {
    var rule := rules[i];
    && |a.waits| == |b.waits| == |rules|
    && if rule.target == 0 || rule.template == 0 then b == a
       else
         var wait := if a.waits[i] == 0 then 0 else a.waits[i] - 1;
         if wait > 0 || a.live >= rule.target then b == a.(waits := a.waits[i := wait])
         else
           && b.live >= a.live
           && Filled(a.requests, b.requests, rule.template, rule.target - a.live, b.live - a.live)
           && b.waits == a.waits[i := if b.live == a.live then 0 else if rule.interval == 0 then 1 else rule.interval]
  }

  ghost predicate RulesRun(rules: seq<Rule>, stages: seq<Stage>, n: nat) {
    n <= |rules| && |stages| == n + 1 && forall i: nat | i < n :: RuleStep(rules, i, stages[i], stages[i + 1])
  }

  lemma RunOn(rules: seq<Rule>, stages: seq<Stage>, n: nat, next: Stage)
    requires RulesRun(rules, stages, n) && n < |rules| && RuleStep(rules, n, stages[n], next)
    ensures RulesRun(rules, stages + [next], n + 1)
  {
    hide RuleStep;
  }

  class WorldRuleDirector {
    const rules: seq<Rule>
    var waits: seq<nat>
    var spawnedAgents: nat

    ghost predicate Valid()
      reads this
    {
      |waits| == |rules|
    }

    constructor (rules: seq<Rule>)
      ensures Valid() && spawnedAgents == 0 && this.rules == rules && forall i :: 0 <= i < |waits| ==> waits[i] == 0
    {
      this.rules, waits, spawnedAgents := rules, seq(|rules|, _ => 0), 0;
    }

    /** Up to `missing` entities, which may be agents, stopping at the first the kernel refuses. */
    method Fill(kernel: Kernel, template: nat, missing: nat, ghost world: World, ghost agents: nat, ghost made: nat)
      returns (created: nat)
      requires Filling(kernel, world, agents, made)
      modifies kernel
      ensures created <= missing && Filling(kernel, world, agents, made + created)
      ensures Filled(old(kernel.requests), kernel.requests, template, missing, created)
    {
      hide Later;
      created := 0;
      ghost var requests := kernel.requests;
      while created < missing
        invariant created <= missing && Filling(kernel, world, agents, made + created)
        invariant Filled(requests, kernel.requests, template, created, created)
      {
        ghost var before := kernel.Now();
        var id := kernel.CreateEntity(template);
        if id == 0 {
          break;
        }
        CreatedLater(before, kernel.Now(), id, template);
        LaterStill(world, before, kernel.Now());
        created := created + 1;
      }
    }

    /** One rule's turn. */
    method TickRule(kernel: Kernel, index: nat, live: nat, ghost world: World, ghost agents: nat, ghost made: nat)
      returns (created: nat)
      requires Valid() && index < |rules| && Filling(kernel, world, agents, made)
      modifies this`waits, this`spawnedAgents, kernel
      ensures Valid() && Filling(kernel, world, agents, made + created) && spawnedAgents == old(spawnedAgents) + created
      ensures RuleStep(rules, index, Stage(old(waits), live, old(kernel.requests)),
                       Stage(waits, live + created, kernel.requests))
      ensures created > 0 ==> Active(rules[index]) && live + created <= rules[index].target
    {
      hide Filling;
      var rule := rules[index];
      if !Active(rule) {
        return 0;
      }
      waits := waits[index := Down(waits[index])];
      if rule.target <= live || waits[index] > 0 {
        return 0;
      }
      created := Fill(kernel, rule.template, rule.target - live, world, agents, made);
      if created == 0 {
        return;
      }
      waits := waits[index := if rule.interval < 1 then 1 else rule.interval];
      spawnedAgents := spawnedAgents + created;
    }

    /** Shortfalls are filled in rule order, each rule counting what those before it made,
        so that no two fill the same one: nobody is made past the largest target. What is
        made counts as an agent whether it is one or not. */
    method Tick(kernel: Kernel, live: nat) returns (ghost stages: seq<Stage>)
      requires Valid() && kernel.Valid()
      modifies this`waits, this`spawnedAgents, kernel
      ensures Valid() && kernel.Valid() && Later(old(kernel.Now()), kernel.Now()) && old(kernel.alive) <= kernel.alive
      ensures spawnedAgents >= old(spawnedAgents)
      ensures 0 <= |kernel.agents| - |old(kernel.agents)| <= spawnedAgents - old(spawnedAgents)
      ensures spawnedAgents == old(spawnedAgents) || live + (spawnedAgents - old(spawnedAgents)) <= MaxTarget(rules)
      ensures RulesRun(rules, stages, |rules|)
      ensures stages[0] == Stage(old(waits), live, old(kernel.requests))
      ensures stages[|rules|] == Stage(waits, live + (spawnedAgents - old(spawnedAgents)), kernel.requests)
    {
      ghost var world, agents, spawned := kernel.Now(), |kernel.agents|, spawnedAgents;
      NothingMade(kernel);
      hide Later, RuleStep, Active;
      var liveCount := live;
      stages := [Stage(waits, live, kernel.requests)];
      for index := 0 to |rules|
        invariant Valid() && spawnedAgents >= spawned && liveCount == live + (spawnedAgents - spawned)
        invariant Filling(kernel, world, agents, spawnedAgents - spawned)
        invariant spawnedAgents == spawned || liveCount <= MaxTarget(rules[..index])
        invariant RulesRun(rules, stages, index) && stages[index] == Stage(waits, liveCount, kernel.requests)
        invariant stages[0] == Stage(old(waits), live, old(kernel.requests))
      {
        assert rules[..index + 1][..index] == rules[..index];
        var created := TickRule(kernel, index, liveCount, world, agents, spawnedAgents - spawned);
        liveCount := liveCount + created;
        RunOn(rules, stages, index, Stage(waits, liveCount, kernel.requests));
        stages := stages + [Stage(waits, liveCount, kernel.requests)];
      }
      assert rules[..|rules|] == rules;
    }
  }

  // ----- what a pass comes to ----------------------------------------------------------------------

  /** Its wait is over this tick. */
  predicate Due(rules: seq<Rule>, waits: seq<nat>, i: nat)
    requires i < |rules| == |waits|
  {
    rules[i].target != 0 && rules[i].template != 0 && waits[i] <= 1
  }

  /** Nothing asked for since was refused. */
  predicate AllGiven(before: nat, requests: seq<Request>) {
    forall k :: before <= k < |requests| ==> requests[k].id != 0
  }

  /** A pass that is refused nothing leaves no rule that was due short of its target, and nothing more
      than the largest of those targets: the population it ends with is exactly that, or what it was. */
  lemma {:induction false} TargetsMet(rules: seq<Rule>, stages: seq<Stage>, n: nat)
    requires RulesRun(rules, stages, n) && |stages[0].waits| == |rules|
    requires AllGiven(|stages[0].requests|, stages[n].requests)
    ensures |stages[0].requests| <= |stages[n].requests| && |stages[n].waits| == |rules|
    ensures stages[n].live >= stages[0].live
    ensures stages[n].live - stages[0].live == |stages[n].requests| - |stages[0].requests|
    ensures forall i: nat | i < n && Due(rules, stages[0].waits, i) :: stages[n].live >= rules[i].target
    ensures stages[n].live == stages[0].live
      || exists i: nat | i < n && Due(rules, stages[0].waits, i) :: stages[n].live == rules[i].target
    ensures forall i: nat | n <= i < |rules| :: stages[n].waits[i] == stages[0].waits[i]
  {
    if n > 0 {
      var a, b := stages[n - 1], stages[n];
      assert RuleStep(rules, n - 1, a, b);
      assert stages[..n][n - 1] == a;
      forall i: nat | i < n - 1 ensures RuleStep(rules, i, stages[..n][i], stages[..n][i + 1]) {
        assert RuleStep(rules, i, stages[i], stages[i + 1]);
      }
      PrefixGiven(|stages[0].requests|, rules, n - 1, a, b);
      TargetsMet(rules, stages[..n], n - 1);
      GivenStep(|stages[0].requests|, rules, n - 1, a, b);
    }
  }

  /** A rule that is refused nothing gets all that was missing. */
  lemma GivenStep(start: nat, rules: seq<Rule>, i: nat, a: Stage, b: Stage)
    requires i < |rules| && RuleStep(rules, i, a, b) && start <= |a.requests| && AllGiven(start, b.requests)
    ensures 0 <= b.live - a.live == |b.requests| - |a.requests|
    ensures Due(rules, a.waits, i) ==> b.live == if a.live < rules[i].target then rules[i].target else a.live
    ensures !Due(rules, a.waits, i) ==> b.live == a.live
  {
    if b.live != a.live || b.requests != a.requests {
      assert b.requests[|b.requests| - 1].id != 0;
    }
  }

  lemma PrefixGiven(start: nat, rules: seq<Rule>, i: nat, a: Stage, b: Stage)
    requires i < |rules| && RuleStep(rules, i, a, b) && AllGiven(start, b.requests)
    ensures a.requests <= b.requests && AllGiven(start, a.requests)
  {
    assert a.requests <= b.requests;
    forall k | start <= k < |a.requests| ensures a.requests[k].id != 0 {
      assert a.requests[k] == b.requests[k];
    }
  }

  /** Those of the requests made since that were given. */
  function GivenAt(before: nat, requests: seq<Request>): set<nat> {
    set k: nat | before <= k < |requests| && requests[k].id != 0
  }

  /** Whatever is refused, the population is counted up by exactly what was given, and everything asked for is what
      some rule that was due and short asks for. */
  lemma {:induction false} CountedAsGiven(rules: seq<Rule>, stages: seq<Stage>, n: nat)
    requires RulesRun(rules, stages, n) && |stages[0].waits| == |rules|
    ensures |stages[n].waits| == |rules| && stages[0].requests <= stages[n].requests
    ensures stages[n].live == stages[0].live + |GivenAt(|stages[0].requests|, stages[n].requests)|
    ensures forall k | |stages[0].requests| <= k < |stages[n].requests| :: AskedByDue(rules, stages, n, k)
    ensures forall i: nat | n <= i < |rules| :: stages[n].waits[i] == stages[0].waits[i]
  {
    if n > 0 {
      var a, b := stages[n - 1], stages[n];
      assert RuleStep(rules, n - 1, a, b);
      assert stages[..n][n - 1] == a;
      forall i: nat | i < n - 1 ensures RuleStep(rules, i, stages[..n][i], stages[..n][i + 1]) {
        assert RuleStep(rules, i, stages[i], stages[i + 1]);
      }
      CountedAsGiven(rules, stages[..n], n - 1);
      StepCounts(|stages[0].requests|, rules, n - 1, a, b);
      forall k | |stages[0].requests| <= k < |b.requests| ensures AskedByDue(rules, stages, n, k) {
        if k < |a.requests| {
          assert AskedByDue(rules, stages[..n], n - 1, k);
        }
      }
    }
  }

  ghost predicate AskedByDue(rules: seq<Rule>, stages: seq<Stage>, n: nat, k: nat)
    requires |stages| == n + 1 && n <= |rules| == |stages[0].waits| && k < |stages[n].requests|
  {
    exists i: nat | i < n && Due(rules, stages[0].waits, i) ::
      && stages[n].requests[k].template == rules[i].template && stages[i].live < rules[i].target
  }

  lemma StepCounts(start: nat, rules: seq<Rule>, i: nat, a: Stage, b: Stage)
    requires i < |rules| && RuleStep(rules, i, a, b) && start <= |a.requests| && |a.waits| == |rules|
    ensures a.requests <= b.requests
    ensures b.live - a.live == |GivenAt(start, b.requests)| - |GivenAt(start, a.requests)|
    ensures b.requests != a.requests ==> Due(rules, a.waits, i) && a.live < rules[i].target
    ensures forall k | |a.requests| <= k < |b.requests| :: b.requests[k].template == rules[i].template
    ensures forall j: nat | j < |rules| && j != i :: b.waits[j] == a.waits[j]
  {
    assert a.requests <= b.requests;
    if b != a && b.live >= a.live {
      Joined(start, a.requests, b.requests, b.live - a.live);
    }
  }

  lemma Joined(start: nat, before: seq<Request>, after: seq<Request>, given: nat)
    requires start <= |before| && before <= after && |before| + given <= |after|
    requires forall k | |before| <= k < |after| :: after[k].id != 0 <==> k < |before| + given
    ensures |GivenAt(start, after)| == |GivenAt(start, before)| + given
  {
    var since := From(|before|, given);
    assert forall k: nat :: k in GivenAt(start, after) <==> k in GivenAt(start, before) || k in since;
    assert GivenAt(start, after) == GivenAt(start, before) + since && GivenAt(start, before) !! since;
  }

  function From(first: nat, n: nat): (r: set<nat>)
    ensures |r| == n && forall k :: k in r <==> first <= k < first + n
  {
    if n == 0 then {} else From(first, n - 1) + {first + n - 1}
  }

  /** Pass after pass of one rule: only its own turns touch its wait, whatever else happens between them. */
  ghost predicate Turns(rules: seq<Rule>, i: nat, before: seq<Stage>, after: seq<Stage>)
    requires i < |rules|
  {
    && |before| == |after|
    && (forall u: nat | u < |before| :: |before[u].waits| == |rules| && RuleStep(rules, i, before[u], after[u]))
    && forall u: nat | u < |before| - 1 :: Kept(after[u].waits, before[u + 1].waits, i)
  }

  predicate Kept(waits: seq<nat>, later: seq<nat>, i: nat) {
    i < |waits| && i < |later| && later[i] == waits[i]
  }

  /** A rule that made something asks for nothing more for an interval, or until the next pass at the least, however
      short the population falls meanwhile; then it is due again. */
  lemma {:induction false} RulePeriod(rules: seq<Rule>, i: nat, before: seq<Stage>, after: seq<Stage>, t: nat)
    requires i < |rules| && Turns(rules, i, before, after) && t < |before|
    requires after[0].live > before[0].live
    requires 0 < t <= rules[i].interval || t == 1
    ensures before[t].waits[i] + t == (if rules[i].interval == 0 then 1 else rules[i].interval) + 1
    ensures if t < rules[i].interval then after[t].requests == before[t].requests && after[t].live == before[t].live
      else Due(rules, before[t].waits, i)
  {
    hide Filled;
    assert RuleStep(rules, i, before[t - 1], after[t - 1]);
    assert Kept(after[t - 1].waits, before[t - 1 + 1].waits, i);
    assert RuleStep(rules, i, before[t], after[t]);
    if t > 1 {
      RulePeriod(rules, i, before, after, t - 1);
    }
  }

  /** The largest target of a rule that has one and names something to spawn. */
  lemma {:induction false} MaxTargetIs(rules: seq<Rule>)
    ensures forall i :: 0 <= i < |rules| && rules[i].template > 0 ==> rules[i].target <= MaxTarget(rules)
    ensures MaxTarget(rules) == 0
      || exists i :: 0 <= i < |rules| && rules[i].template > 0 && rules[i].target == MaxTarget(rules)
  {
    if rules != [] {
      var last := |rules| - 1;
      MaxTargetIs(rules[..last]);
      assert forall i :: 0 <= i < last ==> rules[..last][i] == rules[i];
    }
  }
}
