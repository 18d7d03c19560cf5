/** When a carrier puts units out, how many, and what is then remembered, told of one turn. */
module SpawnerLaws {
  import opened AgentKernel
  import opened Spawners
  import opened SpawnerSteps
  import opened Waves
  import opened Wrappers
  import Composition

  /** Rule `k` is the first for this template, and it is of this kind. */
  predicate Carries(rules: Rules, template: nat, k: nat, trigger: Trigger) {
    && k < |rules.carriers| && rules.carriers[k].template == template && rules.carriers[k].spawner.trigger == trigger
    && forall j :: 0 <= j < k ==> rules.carriers[j].template != template
  }

  lemma {:induction false} RuleIs(carriers: seq<Carrier>, template: nat, k: nat)
    requires k < |carriers| && carriers[k].template == template
    requires forall j :: 0 <= j < k ==> carriers[j].template != template
    ensures SpawnerOf(carriers, template) == Some(carriers[k].spawner)
  {
    if k > 0 {
      RuleIs(carriers[1..], template, k - 1);
    }
  }

  /** How many of a list are alive. */
  function Out(ids: seq<nat>, alive: set<nat>): nat {
    |OutAt(ids, alive)|
  }

  function OutAt(ids: seq<nat>, alive: set<nat>): set<nat> {
    set j: nat | j < |ids| && ids[j] in alive
  }

  lemma {:induction false} OutIs(ids: seq<nat>, alive: set<nat>)
    ensures |Pruned(ids, alive)| == Out(ids, alive)
  {
    if ids != [] {
      var last := |ids| - 1;
      OutIs(ids[..last], alive);
      OneMoreOut(ids, alive);
    }
  }

  lemma OneMoreOut(ids: seq<nat>, alive: set<nat>)
    requires ids != []
    ensures Out(ids, alive) == Out(ids[..|ids| - 1], alive) + if ids[|ids| - 1] in alive then 1 else 0
  {
    var last: nat := |ids| - 1;
    var before, one: set<nat> := OutAt(ids[..last], alive), if ids[last] in alive then {last} else {};
    assert forall j: nat :: j in OutAt(ids, alive) <==> j in before || j in one;
    assert OutAt(ids, alive) == before + one && last !in before;
  }

  /** A caller's instance as a signal finds it: its own, or a fresh one. */
  predicate Heard(m: Memory, signal: Signal, i: nat, inst: Instance) {
    && i <= |m.instances| && (forall j :: 0 <= j < i ==> m.instances[j].carrier != signal.netId)
    && if i < |m.instances| then inst == m.instances[i] && inst.carrier == signal.netId
       else inst == Instance(signal.netId, signal.template, 0, 0, 0, false, [])
  }

  lemma HeardIs(m: Memory, signal: Signal, i: nat, inst: Instance)
    requires Heard(m, signal, i, inst)
    ensures At(m, signal) == i && i < |Met(m, signal).instances|
    ensures Met(m, signal).cannotCall == m.cannotCall && Met(m, signal).reinforceLive == m.reinforceLive
    ensures Met(m, signal).instances[i] == if signal.started then inst.(calls := 0, refused := false) else inst
  {
  }

  /** It sees its target, no call of its is too recent, it has calls left and has not been refused since its
      engagement began, and no spawner put it out. */
  predicate MayCallOut(s: Spawner, m: Memory, signal: Signal, inst: Instance) {
    && signal.sees && inst.wait == 0 && signal.netId !in m.cannotCall
    && (signal.started || !inst.refused)
    && (s.callsPerAlert == 0 || signal.started || inst.calls < s.callsPerAlert)
  }

  function Begun(signal: Signal): seq<Event> {
    if signal.started then [Engaged(signal.netId)] else []
  }

  /** One that may not call asks for nobody, and nothing but its engagement is logged. */
  lemma NoCall(rules: Rules, randomness: (nat, nat) -> nat -> nat, valid: set<nat>, ceiling: nat, now: nat,
               signal: Signal, a: Stage, b: Stage, k: nat, i: nat, inst: Instance)
    requires ValidRules(rules) && SignalTurn(rules, randomness, valid, ceiling, now, signal, a, b)
    requires Carries(rules, signal.template, k, OnAlert) && Heard(a.memory, signal, i, inst)
    requires !MayCallOut(rules.carriers[k].spawner, a.memory, signal, inst)
    ensures b.requests == a.requests && b.live == a.live && b.log == a.log + Begun(signal)
  {
    hide ValidRules, Met, At;
    RuleIs(rules.carriers, signal.template, k);
    HeardIs(a.memory, signal, i, inst);
  }

  /** One that may call does, with what it has lost forgotten. */
  lemma ItCalls(rules: Rules, randomness: (nat, nat) -> nat -> nat, valid: set<nat>, ceiling: nat, now: nat,
                signal: Signal, a: Stage, b: Stage, k: nat, i: nat, inst: Instance) returns (c: Stage)
    requires ValidRules(rules) && SignalTurn(rules, randomness, valid, ceiling, now, signal, a, b)
    requires Carries(rules, signal.template, k, OnAlert) && Heard(a.memory, signal, i, inst)
    requires MayCallOut(rules.carriers[k].spawner, a.memory, signal, inst)
    ensures ValidSpawner(rules.carriers[k].spawner)
    ensures CallTurn(rules, randomness, valid, ceiling, now, i, rules.carriers[k].spawner, c, b)
    ensures c.alive == a.alive && c.live == a.live && c.requests == a.requests && c.log == a.log + Begun(signal)
    ensures c.memory.reinforceLive == a.memory.reinforceLive && i < |c.memory.instances|
    ensures c.memory.instances[i] == inst.(calls := if signal.started then 0 else inst.calls, refused := false,
                                           spawned := Pruned(inst.spawned, a.alive))
    ensures |c.memory.instances[i].spawned| == Out(inst.spawned, a.alive) && inst.carrier == signal.netId
  {
    hide ValidRules, Met, At, CallTurn, Pruned, Out;
    RuleIs(rules.carriers, signal.template, k);
    HeardIs(a.memory, signal, i, inst);
    RulesValid(rules, k);
    OutIs(inst.spawned, a.alive);
    var m := Met(a.memory, signal);
    assert a.log + [] == a.log;
    c := a.(memory := m.(instances := m.instances[i := m.instances[i].(spawned := Pruned(inst.spawned, a.alive))]),
            log := a.log + Begun(signal));
  }

  /** What comes of a call that asks for so many. */
  lemma CallComesTo(rules: Rules, randomness: (nat, nat) -> nat -> nat, valid: set<nat>, ceiling: nat, now: nat,
                    i: nat, s: Spawner, c: Stage, b: Stage, inst: Instance, n: nat)
    requires ValidSpawner(s) && CallTurn(rules, randomness, valid, ceiling, now, i, s, c, b)
    requires i < |c.memory.instances| && inst == c.memory.instances[i]
    requires n == CallAsk(s, |inst.spawned|, rules.reinforceMax, |c.memory.reinforceLive|, ceiling, c.live,
                          randomness(inst.carrier, inst.ordinal)(0))
    requires s.countMax <= UNBOUNDED
    ensures n == 0 ==>
      && b.requests == c.requests && b.log == c.log + [Refused(inst.carrier)]
      && i < |b.memory.instances| && b.memory.instances[i].refused
    ensures n != 0 && (inst.carrier !in c.alive || inst.carrier !in valid) ==> b == c
    ensures n != 0 && inst.carrier in c.alive && inst.carrier in valid ==>
      && c.requests <= b.requests && |b.requests| == |c.requests| + n
      && WaveCalled(rules, now, i, s, n, randomness(inst.carrier, inst.ordinal), c, b)
  {
    hide CallAsk, Composition.InRange, WaveCalled;
    if n != 0 {
      CallAskIs(s, |inst.spawned|, rules.reinforceMax, |c.memory.reinforceLive|, ceiling, c.live,
                randomness(inst.carrier, inst.ordinal)(0));
      Composition.InRangeIs(randomness(inst.carrier, inst.ordinal)(0), s.countMin, s.countMax);
      if inst.carrier in c.alive && inst.carrier in valid {
        WaveIsAsked(rules, now, i, s, n, randomness(inst.carrier, inst.ordinal), c, b);
      }
    }
  }

  lemma WaveIsAsked(rules: Rules, now: nat, i: nat, s: Spawner, n: nat, values: nat -> nat, c: Stage, b: Stage)
    requires ValidSpawner(s) && s.countMin <= n <= s.countMax && WaveCalled(rules, now, i, s, n, values, c, b)
    ensures c.requests <= b.requests && |b.requests| == |c.requests| + n
  {
    hide WaveOf, Waved;
    WaveSize(s.composition, s.countMin, s.countMax, n, values);
  }

  /** What may come of a call: a whole wave, as big as was drawn or as three ceilings let in. */
  predicate MayAnswer(rules: Rules, s: Spawner, inst: Instance, a: Stage, ceiling: nat, drawn: nat, n: nat) {
    MayCome(s, Out(inst.spawned, a.alive), rules.reinforceMax, |a.memory.reinforceLive|, ceiling, a.live, drawn, n)
  }

  /** One that may call, and for which no whole wave has room, is refused and asks for nobody. */
  lemma CallRefused(rules: Rules, randomness: (nat, nat) -> nat -> nat, valid: set<nat>, ceiling: nat, now: nat,
                    signal: Signal, a: Stage, b: Stage, k: nat, i: nat, inst: Instance)
    requires ValidRules(rules) && SignalTurn(rules, randomness, valid, ceiling, now, signal, a, b)
    requires Carries(rules, signal.template, k, OnAlert) && Heard(a.memory, signal, i, inst)
    requires MayCallOut(rules.carriers[k].spawner, a.memory, signal, inst)
    requires rules.carriers[k].spawner.countMax <= UNBOUNDED
    requires var s := rules.carriers[k].spawner;
      var drawn := Composition.InRange(randomness(signal.netId, inst.ordinal)(0), s.countMin, s.countMax);
      forall n: nat :: !MayAnswer(rules, s, inst, a, ceiling, drawn, n)
    ensures b.requests == a.requests && b.log == a.log + Begun(signal) + [Refused(signal.netId)]
    ensures i < |b.memory.instances| && b.memory.instances[i].refused
  {
    var c := ItCalls(rules, randomness, valid, ceiling, now, signal, a, b, k, i, inst);
    var s := rules.carriers[k].spawner;
    hide SignalTurn, CallTurn, MayAnswer;
    var n := Largest(rules, s, inst, a, ceiling, randomness(signal.netId, inst.ordinal)(0));
    CallComesTo(rules, randomness, valid, ceiling, now, i, s, c, b, c.memory.instances[i], n);
  }

  lemma Largest(rules: Rules, s: Spawner, inst: Instance, a: Stage, ceiling: nat, word: nat) returns (n: nat)
    requires ValidSpawner(s) && s.countMax <= UNBOUNDED
    ensures n == CallAsk(s, Out(inst.spawned, a.alive), rules.reinforceMax, |a.memory.reinforceLive|, ceiling, a.live,
                         word)
    ensures var drawn := Composition.InRange(word, s.countMin, s.countMax);
      && (n != 0 ==> MayAnswer(rules, s, inst, a, ceiling, drawn, n))
      && (forall m: nat :: MayAnswer(rules, s, inst, a, ceiling, drawn, m) ==> 0 < m <= n)
  {
    hide CallAsk, Out, Composition.InRange;
    n := CallAsk(s, Out(inst.spawned, a.alive), rules.reinforceMax, |a.memory.reinforceLive|, ceiling, a.live, word);
    CallAskIs(s, Out(inst.spawned, a.alive), rules.reinforceMax, |a.memory.reinforceLive|, ceiling, a.live, word);
  }

  /** A call that is answered: the largest whole wave there is room for is asked for, unit by unit, and if
      anyone comes the call is logged and counted and its gap begins. */
  ghost predicate Answered(rules: Rules, s: Spawner, signal: Signal, inst: Instance, i: nat, a: Stage, b: Stage,
                           ceiling: nat, now: nat, drawn: nat, asked: nat) {
    && a.requests <= b.requests && |b.requests| == |a.requests| + asked
    && MayAnswer(rules, s, inst, a, ceiling, drawn, asked)
    && (forall n: nat :: MayAnswer(rules, s, inst, a, ceiling, drawn, n) ==> n <= asked)
    && i < |b.memory.instances|
    && var called, after := Comes(a.requests, b.requests), b.memory.instances[i];
       && b.log == a.log + Begun(signal) + (if called then [Called(signal.netId, now)] else [])
       && !after.refused
       && after.calls == (if signal.started then 0 else inst.calls) + (if called then 1 else 0)
       && after.wait == (if called then s.intervalTicks else 0)
       && after.ordinal == inst.ordinal + if called then 1 else 0
  }

  /** One that may call, and for which some whole wave has room, is not refused, and if it is there it is
      answered. */
  lemma CallAnswered(rules: Rules, randomness: (nat, nat) -> nat -> nat, valid: set<nat>, ceiling: nat, now: nat,
                     signal: Signal, a: Stage, b: Stage, k: nat, i: nat, inst: Instance, drawn: nat, m: nat)
      returns (asked: nat)
    requires ValidRules(rules) && SignalTurn(rules, randomness, valid, ceiling, now, signal, a, b)
    requires Carries(rules, signal.template, k, OnAlert) && Heard(a.memory, signal, i, inst)
    requires MayCallOut(rules.carriers[k].spawner, a.memory, signal, inst)
    requires rules.carriers[k].spawner.countMax <= UNBOUNDED
    requires var s := rules.carriers[k].spawner;
      && drawn == Composition.InRange(randomness(signal.netId, inst.ordinal)(0), s.countMin, s.countMax)
      && MayAnswer(rules, s, inst, a, ceiling, drawn, m)
    ensures signal.netId !in a.alive || signal.netId !in valid ==>
      b.requests == a.requests && b.log == a.log + Begun(signal)
    ensures signal.netId in a.alive && signal.netId in valid ==>
      Answered(rules, rules.carriers[k].spawner, signal, inst, i, a, b, ceiling, now, drawn, asked)
  {
    hide Out, MayAnswer, Composition.InRange;
    var c := ItCalls(rules, randomness, valid, ceiling, now, signal, a, b, k, i, inst);
    var s := rules.carriers[k].spawner;
    var values := randomness(signal.netId, inst.ordinal);
    hide CallTurn, SignalTurn, MayAnswer, Comes, WaveCalled, Carries, Heard, CallAsk, ValidRules, ValidSpawner, Begun,
         Composition.InRange, Answered;
    asked := Largest(rules, s, inst, a, ceiling, values(0));
    CallComesTo(rules, randomness, valid, ceiling, now, i, s, c, b, c.memory.instances[i], asked);
    if signal.netId in a.alive && signal.netId in valid {
      CalledAfter(rules, now, i, s, asked, values, c, b);
      AnsweredIs(rules, s, signal, inst, i, a, c, b, ceiling, now, drawn, asked, Pruned(inst.spawned, a.alive));
    }
  }

  lemma AnsweredIs(rules: Rules, s: Spawner, signal: Signal, inst: Instance, i: nat, a: Stage, c: Stage, b: Stage,
                   ceiling: nat, now: nat, drawn: nat, asked: nat, spawned: seq<nat>)
    requires a.requests <= b.requests && |b.requests| == |a.requests| + asked
    requires MayAnswer(rules, s, inst, a, ceiling, drawn, asked)
    requires forall n: nat :: MayAnswer(rules, s, inst, a, ceiling, drawn, n) ==> 0 < n <= asked
    requires i < |c.memory.instances| && i < |b.memory.instances| && inst.wait == 0 && inst.carrier == signal.netId
    requires c.log == a.log + Begun(signal)
    requires c.memory.instances[i]
      == inst.(calls := if signal.started then 0 else inst.calls, refused := false, spawned := spawned)
    requires CalledOnce(now, i, s, a.requests, c, b)
    ensures Answered(rules, s, signal, inst, i, a, b, ceiling, now, drawn, asked)
  {
    hide MayAnswer, Comes, Begun;
  }

  /** If anyone came, a call is logged and counted and its gap begins. */
  predicate CalledOnce(now: nat, i: nat, s: Spawner, before: seq<Request>, c: Stage, b: Stage)
    requires i < |c.memory.instances| && i < |b.memory.instances|
  {
    var called, was, after := Comes(before, b.requests), c.memory.instances[i], b.memory.instances[i];
    && b.log == c.log + (if called then [Called(was.carrier, now)] else [])
    && after.refused == was.refused
    && after.calls == was.calls + (if called then 1 else 0)
    && after.wait == (if called then s.intervalTicks else was.wait)
    && after.ordinal == was.ordinal + if called then 1 else 0
  }

  /** Somebody was given of what has been asked for since. */
  predicate Comes(before: seq<Request>, after: seq<Request>) {
    exists j :: |before| <= j < |after| && after[j].id != 0
  }

  lemma ComesIs(a: Stage, b: Stage)
    requires a.requests <= b.requests
    ensures Comes(a.requests, b.requests) <==> Granted(Since(a, b)) != 0
  {
    SomeGranted(Since(a, b));
    var since := Since(a, b);
    if Comes(a.requests, b.requests) {
      var j :| |a.requests| <= j < |b.requests| && b.requests[j].id != 0;
      assert since[j - |a.requests|].id != 0;
    }
    if j :| 0 <= j < |since| && since[j].id != 0 {
      assert b.requests[|a.requests| + j].id != 0;
    }
  }

  lemma {:induction false} SomeGranted(made: seq<Request>)
    ensures Granted(made) != 0 <==> exists j :: 0 <= j < |made| && made[j].id != 0
  {
    if made != [] {
      var front := made[..|made| - 1];
      SomeGranted(front);
      if j :| 0 <= j < |made| && made[j].id != 0 {
        assert j < |front| ==> front[j].id != 0;
      }
      if j :| 0 <= j < |front| && front[j].id != 0 {
        assert made[j].id != 0;
      }
    }
  }

  lemma CalledAfter(rules: Rules, now: nat, i: nat, s: Spawner, n: nat, values: nat -> nat, c: Stage, b: Stage)
    requires ValidSpawner(s) && WaveCalled(rules, now, i, s, n, values, c, b)
    requires c.requests <= b.requests && i < |c.memory.instances|
    ensures i < |b.memory.instances| && CalledOnce(now, i, s, c.requests, c, b)
  {
    hide AskedWave, Comes, Recorded;
    ComesIs(c, b);
    RecordedIs(rules, c.memory, i, Since(c, b));
  }

  lemma RulesValid(rules: Rules, k: nat)
    requires ValidRules(rules) && k < |rules.carriers|
    ensures ValidSpawner(rules.carriers[k].spawner)
  {
    assert rules.carriers[k] in rules.carriers;
  }

  // ----- the clocks ---------------------------------------------------------------------------------

  /** A clock that has run down, this tick or before. */
  predicate RunDown(inst: Instance) {
    inst.wait <= 1
  }

  /** A wave of so many, with what the carrier has out and who there is in all. */
  predicate MayFire(s: Spawner, inst: Instance, a: Stage, ceiling: nat, drawn: nat, n: nat) {
    MayCome(s, Out(inst.spawned, a.alive), 0, 0, ceiling, a.live, drawn, n)
  }

  /** A clock one tick on asks for nobody. */
  predicate Ticks(i: nat, inst: Instance, a: Stage, b: Stage) {
    && b.requests == a.requests && b.live == a.live
    && i < |b.memory.instances| && b.memory.instances[i].wait == if inst.wait == 0 then 0 else inst.wait - 1
  }

  /** A clock that fires: the largest whole wave there is room for is asked for, unit by unit, and if anyone
      comes it is wound up again. */
  ghost predicate Fires(s: Spawner, i: nat, inst: Instance, a: Stage, b: Stage, ceiling: nat, drawn: nat, asked: nat) {
    && a.requests <= b.requests && |b.requests| == |a.requests| + asked
    && MayFire(s, inst, a, ceiling, drawn, asked)
    && (forall n: nat :: MayFire(s, inst, a, ceiling, drawn, n) ==> n <= asked)
    && i < |b.memory.instances|
    && b.memory.instances[i].wait == (if Comes(a.requests, b.requests) then s.intervalTicks else 0)
    && b.memory.instances[i].ordinal == inst.ordinal + if Comes(a.requests, b.requests) then 1 else 0
  }

  /** A clock fires if it has run down on a carrier that is there and some whole wave has room; any other
      asks for nobody. */
  lemma ClockFiresExactly(rules: Rules, randomness: (nat, nat) -> nat -> nat, valid: set<nat>, ceiling: nat, i: nat,
                          a: Stage, b: Stage, k: nat, inst: Instance, drawn: nat) returns (asked: nat)
    requires ValidRules(rules) && ClockTurn(rules, randomness, valid, ceiling, i, a, b)
    requires i < |a.memory.instances| && inst == a.memory.instances[i] && Carries(rules, inst.template, k, Interval)
    requires rules.carriers[k].spawner.countMax <= UNBOUNDED
    requires var s := rules.carriers[k].spawner;
      drawn == Composition.InRange(randomness(inst.carrier, inst.ordinal)(0), s.countMin, s.countMax)
    ensures b.log == a.log
    ensures var s := rules.carriers[k].spawner;
      if RunDown(inst) && inst.carrier in a.alive && inst.carrier in valid
         && exists n: nat :: MayFire(s, inst, a, ceiling, drawn, n)
      then Fires(s, i, inst, a, b, ceiling, drawn, asked)
      else Ticks(i, inst, a, b)
  {
    var s, values := rules.carriers[k].spawner, randomness(inst.carrier, inst.ordinal);
    var c := ItTicks(rules, randomness, valid, ceiling, i, a, b, k, inst);
    hide ClockTurn, ValidRules, Carries, MayFire, Comes, WaveFired, Pruned, Out, Composition.InRange, Fires, ClockFires;
    asked := LargestWave(s, inst, a, ceiling, values(0));
    FiringComesTo(rules, randomness, valid, ceiling, i, s, c, b, c.memory.instances[i], asked);
    if RunDown(inst) && inst.carrier in a.alive && inst.carrier in valid && asked != 0 {
      FiredAfter(rules, i, s, asked, values, c, b);
      FiresIs(s, i, inst, a, c, b, ceiling, drawn, asked, Pruned(inst.spawned, a.alive));
    }
  }

  lemma FiresIs(s: Spawner, i: nat, inst: Instance, a: Stage, c: Stage, b: Stage, ceiling: nat, drawn: nat, asked: nat,
                spawned: seq<nat>)
    requires a.requests <= b.requests && |b.requests| == |a.requests| + asked && c.requests == a.requests
    requires MayFire(s, inst, a, ceiling, drawn, asked)
    requires forall n: nat :: MayFire(s, inst, a, ceiling, drawn, n) ==> 0 < n <= asked
    requires i < |c.memory.instances| && c.memory.instances[i] == inst.(wait := 0, spawned := spawned)
    requires FiredOnce(i, s, c, b)
    ensures Fires(s, i, inst, a, b, ceiling, drawn, asked)
  {
    hide MayFire, Comes;
  }

  /** It is counted down, with what it has lost forgotten. */
  lemma ItTicks(rules: Rules, randomness: (nat, nat) -> nat -> nat, valid: set<nat>, ceiling: nat, i: nat,
                a: Stage, b: Stage, k: nat, inst: Instance) returns (c: Stage)
    requires ValidRules(rules) && ClockTurn(rules, randomness, valid, ceiling, i, a, b)
    requires i < |a.memory.instances| && inst == a.memory.instances[i] && Carries(rules, inst.template, k, Interval)
    ensures ValidSpawner(rules.carriers[k].spawner)
    ensures ClockFires(rules, randomness, valid, ceiling, i, rules.carriers[k].spawner, c, b)
    ensures c.alive == a.alive && c.live == a.live && c.requests == a.requests && c.log == a.log
    ensures i < |c.memory.instances|
    ensures c.memory.instances[i] == inst.(wait := if inst.wait == 0 then 0 else inst.wait - 1,
                                           spawned := Pruned(inst.spawned, a.alive))
    ensures |c.memory.instances[i].spawned| == Out(inst.spawned, a.alive)
  {
    hide ValidRules, ClockFires, Pruned, Out;
    RuleIs(rules.carriers, inst.template, k);
    RulesValid(rules, k);
    OutIs(inst.spawned, a.alive);
    var wound := inst.(wait := if inst.wait == 0 then 0 else inst.wait - 1, spawned := Pruned(inst.spawned, a.alive));
    c := a.(memory := a.memory.(instances := a.memory.instances[i := wound]));
  }

  lemma LargestWave(s: Spawner, inst: Instance, a: Stage, ceiling: nat, word: nat) returns (n: nat)
    requires ValidSpawner(s) && s.countMax <= UNBOUNDED
    ensures n == ClockAsk(s, Out(inst.spawned, a.alive), ceiling, a.live, word)
    ensures var drawn := Composition.InRange(word, s.countMin, s.countMax);
      && (n != 0 ==> MayFire(s, inst, a, ceiling, drawn, n))
      && (forall m: nat :: MayFire(s, inst, a, ceiling, drawn, m) ==> 0 < m <= n)
  {
    hide ClockAsk, Out, Composition.InRange;
    n := ClockAsk(s, Out(inst.spawned, a.alive), ceiling, a.live, word);
    ClockAskIs(s, Out(inst.spawned, a.alive), ceiling, a.live, word);
  }

  lemma FiringComesTo(rules: Rules, randomness: (nat, nat) -> nat -> nat, valid: set<nat>, ceiling: nat, i: nat,
                      s: Spawner, c: Stage, b: Stage, inst: Instance, n: nat)
    requires ValidSpawner(s) && ClockFires(rules, randomness, valid, ceiling, i, s, c, b)
    requires i < |c.memory.instances| && inst == c.memory.instances[i]
    requires n == ClockAsk(s, |inst.spawned|, ceiling, c.live, randomness(inst.carrier, inst.ordinal)(0))
    requires s.countMax <= UNBOUNDED
    ensures b.log == c.log
    ensures if inst.wait > 0 || inst.carrier !in c.alive || inst.carrier !in valid || n == 0 then b == c
      else
        && c.requests <= b.requests && |b.requests| == |c.requests| + n
        && WaveFired(rules, i, s, n, randomness(inst.carrier, inst.ordinal), c, b)
  {
    hide ClockAsk, Composition.InRange, WaveFired;
    if inst.wait == 0 && inst.carrier in c.alive && inst.carrier in valid && n != 0 {
      ClockAskIs(s, |inst.spawned|, ceiling, c.live, randomness(inst.carrier, inst.ordinal)(0));
      Composition.InRangeIs(randomness(inst.carrier, inst.ordinal)(0), s.countMin, s.countMax);
      FiringIsAsked(rules, i, s, n, randomness(inst.carrier, inst.ordinal), c, b);
    }
  }

  lemma FiringIsAsked(rules: Rules, i: nat, s: Spawner, n: nat, values: nat -> nat, c: Stage, b: Stage)
    requires ValidSpawner(s) && s.countMin <= n <= s.countMax && WaveFired(rules, i, s, n, values, c, b)
    ensures b.log == c.log && c.requests <= b.requests && |b.requests| == |c.requests| + n
  {
    hide WaveOf, Waved;
    WaveSize(s.composition, s.countMin, s.countMax, n, values);
  }

  /** If anyone came, the clock is wound up again. */
  predicate FiredOnce(i: nat, s: Spawner, c: Stage, b: Stage)
    requires i < |c.memory.instances|
  {
    && i < |b.memory.instances|
    && var called, was, after := Comes(c.requests, b.requests), c.memory.instances[i], b.memory.instances[i];
       && after.wait == (if called then s.intervalTicks else was.wait)
       && after.ordinal == was.ordinal + if called then 1 else 0
  }

  lemma FiredAfter(rules: Rules, i: nat, s: Spawner, n: nat, values: nat -> nat, c: Stage, b: Stage)
    requires ValidSpawner(s) && WaveFired(rules, i, s, n, values, c, b)
    requires c.requests <= b.requests && i < |c.memory.instances|
    ensures FiredOnce(i, s, c, b)
  {
    hide AskedWave, Comes, Recorded;
    ComesIs(c, b);
    RecordedIs(rules, c.memory, i, Since(c, b));
  }

  // ----- what is remembered -----------------------------------------------------------------------------

  /** Instance by instance, in order. */
  lemma {:induction false} RetiredSplits(rules: Rules, a: seq<Instance>, b: seq<Instance>, live: set<nat>)
    ensures Retired(rules, a + b, live) == Retired(rules, a, live) + Retired(rules, b, live)
  {
    hide OnClock;
    if b == [] {
      assert a + b == a;
    } else {
      RetiredSplits(rules, a, b[..|b| - 1], live);
      assert (a + b)[..|a + b| - 1] == a + b[..|b| - 1];
    }
  }

  /** A clock is dropped if the query does not find its carrier, and nothing else is. */
  lemma OneRetired(rules: Rules, inst: Instance, live: set<nat>)
    ensures (exists k :: Carries(rules, inst.template, k, Interval)) && inst.carrier !in live
      ==> Retired(rules, [inst], live) == []
    ensures (forall k :: !Carries(rules, inst.template, k, Interval)) || inst.carrier in live
      ==> Retired(rules, [inst], live) == [inst]
  {
    KindIs(rules, inst.template, Interval);
    assert [inst][..0] == [];
  }

  lemma KindIs(rules: Rules, template: nat, trigger: Trigger)
    ensures (exists k :: Carries(rules, template, k, trigger))
      <==> var s := SpawnerOf(rules.carriers, template); s.Some? && s.value.trigger == trigger
  {
    if k :| Carries(rules, template, k, trigger) {
      RuleIs(rules.carriers, template, k);
    }
    if SpawnerOf(rules.carriers, template).Some? {
      var k := FirstRule(rules.carriers, template);
      RuleIs(rules.carriers, template, k);
      assert SpawnerOf(rules.carriers, template).value.trigger == trigger ==> Carries(rules, template, k, trigger);
    }
  }

  lemma {:induction false} FirstRule(carriers: seq<Carrier>, template: nat) returns (k: nat)
    requires SpawnerOf(carriers, template).Some?
    ensures k < |carriers| && carriers[k].template == template
    ensures forall j :: 0 <= j < k ==> carriers[j].template != template
  {
    if carriers[0].template == template {
      k := 0;
    } else {
      k := FirstRule(carriers[1..], template);
      k := k + 1;
    }
  }

  lemma {:induction false} PresentSplits(rules: Rules, a: seq<Instance>, b: seq<Instance>, alive: set<nat>)
    ensures Present(rules, a + b, alive) == Present(rules, a, alive) + Present(rules, b, alive)
  {
    hide CallsForHelp;
    if b == [] {
      assert a + b == a;
    } else {
      PresentSplits(rules, a, b[..|b| - 1], alive);
      assert (a + b)[..|a + b| - 1] == a + b[..|b| - 1];
    }
  }

  /** Instance by instance, in order. */
  lemma RestedSplits(rules: Rules, a: seq<Instance>, b: seq<Instance>, alive: set<nat>)
    ensures RestedInstances(rules, a + b, alive) == RestedInstances(rules, a, alive) + RestedInstances(rules, b, alive)
  {
    hide CallsForHelp;
    assert Countdown(rules, a + b) == Countdown(rules, a) + Countdown(rules, b);
    PresentSplits(rules, Countdown(rules, a), Countdown(rules, b), alive);
  }

  function RestedInstances(rules: Rules, instances: seq<Instance>, alive: set<nat>): seq<Instance> {
    Rested(rules, Memory(instances, [], []), alive).instances
  }

  /** A caller that is alive has one tick less to wait, one that is gone is dropped, and a clock rests as it is. */
  lemma OneRested(rules: Rules, inst: Instance, alive: set<nat>)
    ensures (exists k :: Carries(rules, inst.template, k, OnAlert)) ==>
      RestedInstances(rules, [inst], alive)
        == if inst.carrier in alive then [inst.(wait := if inst.wait == 0 then 0 else inst.wait - 1)] else []
    ensures (forall k :: !Carries(rules, inst.template, k, OnAlert)) ==> RestedInstances(rules, [inst], alive) == [inst]
  {
    KindIs(rules, inst.template, OnAlert);
    var one := if CallsForHelp(rules, inst.template) then inst.(wait := if inst.wait == 0 then 0 else inst.wait - 1)
               else inst;
    assert Countdown(rules, [inst]) == [one];
    assert [one][..0] == [] && Present(rules, [one][..0], alive) == [];
  }

  /** What is out, and what may not call, stays listed for as long as it lives, in the same order. */
  lemma {:induction false} PrunedSplits(a: seq<nat>, id: nat, alive: set<nat>)
    ensures Pruned(a + [id], alive) == Pruned(a, alive) + if id in alive then [id] else []
  {
    assert (a + [id])[..|a|] == a;
  }

  /** Who answers calls, and who may not call, is on its own list for as long as it lives. */
  lemma RestedLists(rules: Rules, m: Memory, alive: set<nat>, id: nat)
    ensures var r := Rested(rules, m, alive);
      && (id in r.reinforceLive <==> id in m.reinforceLive && id in alive)
      && (id in r.cannotCall <==> id in m.cannotCall && id in alive)
  {
    hide Present, Countdown;
  }

  /** What a clock is like when it is found: a whole interval from its first wave, with nobody out. */
  lemma FoundIs(rules: Rules, before: seq<Instance>, after: seq<Instance>, live: set<nat>, i: nat)
    requires Discovered(rules, before, after, live) && |before| <= i < |after|
    ensures after[..|before|] == before && after[i].carrier in live
    ensures exists k: nat ::
      Carries(rules, after[i].template, k, Interval)
      && after[i] == Instance(after[i].carrier, after[i].template, rules.carriers[k].spawner.intervalTicks,
                              0, 0, false, [])
  {
    hide Serving;
    var k := FirstRule(rules.carriers, after[i].template);
    RuleIs(rules.carriers, after[i].template, k);
    assert Carries(rules, after[i].template, k, Interval);
  }

  /** Every clock that is there has an instance when the clocks take their turns, and no clock that is gone does. */
  lemma ClocksHaveTurns(rules: Rules, w: World, before: seq<Instance>, found: seq<Instance>, id: nat)
    requires Discovered(rules, before, found, LiveClocks(rules, w))
    ensures id in w.alive && id in w.templates && OnClock(rules, w.templates[id]) ==>
      exists i :: 0 <= i < |Retired(rules, found, LiveClocks(rules, w))|
                  && Retired(rules, found, LiveClocks(rules, w))[i].carrier == id
    ensures forall inst :: inst in Retired(rules, found, LiveClocks(rules, w)) && OnClock(rules, inst.template) ==>
      inst.carrier in w.alive
  {
    hide OnClock;
    var live := LiveClocks(rules, w);
    RetiredExactly(rules, found, live);
    if id in live {
      var i :| 0 <= i < |found| && found[i].carrier == id;
      assert found[i] in Retired(rules, found, live);
    }
  }

  lemma {:induction false} RetiredExactly(rules: Rules, instances: seq<Instance>, live: set<nat>)
    ensures forall inst ::
      inst in Retired(rules, instances, live)
      <==> inst in instances && (OnClock(rules, inst.template) ==> inst.carrier in live)
  {
    hide OnClock;
    if instances != [] {
      RetiredExactly(rules, instances[..|instances| - 1], live);
      assert instances == instances[..|instances| - 1] + [instances[|instances| - 1]];
    }
  }

  // ----- a whole tick -------------------------------------------------------------------------------------

  /** Every signal has its turn, in net id order, each from where the one before it left off. */
  lemma CallersTakeTurns(rules: Rules, randomness: (nat, nat) -> nat -> nat, valid: set<nat>, ceiling: nat, now: nat,
                         signals: seq<Signal>, a: Stage, t: Course, b: Stage, i: nat)
    requires ValidRules(rules) && Ticked(rules, randomness, valid, ceiling, now, signals, a, t, b)
    requires rules.carriers != [] && i < |signals|
    ensures |t.ordered| == |signals| && |t.calls| == |signals| + 1 && multiset(t.ordered) == multiset(signals)
    ensures i + 1 < |signals| ==> t.ordered[i].netId <= t.ordered[i + 1].netId
    ensures SignalTurn(rules, randomness, valid, ceiling, now, t.ordered[i], t.calls[i], t.calls[i + 1])
    ensures t.calls[0].requests == t.between.requests && t.calls[0].live == t.between.live
    ensures t.calls[0].alive == t.between.alive && t.calls[|signals|] == b
  {
    hide SignalTurn, ClocksTicked, ValidRules, Rested;
    assert |multiset(t.ordered)| == |multiset(signals)|;
  }

  /** And so does every clock before them, in the order they were found. */
  lemma ClocksTakeTurns(rules: Rules, randomness: (nat, nat) -> nat -> nat, valid: set<nat>, ceiling: nat, now: nat,
                        signals: seq<Signal>, a: Stage, t: Course, b: Stage, i: nat)
    requires ValidRules(rules) && Ticked(rules, randomness, valid, ceiling, now, signals, a, t, b)
    requires exists c :: c in rules.carriers && c.spawner.trigger == Interval
    ensures t.clocks != [] && |t.clocks| == |t.clocks[0].memory.instances| + 1
    ensures t.clocks[0].memory.instances == Retired(rules, t.found, t.live) && a.memory.instances <= t.found
    ensures i + 1 < |t.clocks| ==>
      ClockTurn(rules, randomness, valid, ceiling, i, t.clocks[i], t.clocks[i + 1])
    ensures t.clocks[0].requests == a.requests && t.clocks[0].live == a.live && t.clocks[0].alive == a.alive
    ensures t.clocks[|t.clocks| - 1] == t.between
  {
    hide ClockTurn, SignalsTicked, ValidRules, Retired;
  }
}
