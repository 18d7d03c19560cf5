/** What one turn of a spawner comes to, exactly: which units the kernel is asked for, in which
    order, and what is remembered of its answers. */
module SpawnerSteps {
  import opened AgentKernel
  import opened Spawners
  import opened Waves
  import opened Wrappers
  import Composition

  // ----- how big it is ------------------------------------------------------------------------------

  /** Whole waves only. */
  function Whole(s: Spawner, count: nat): nat {
    if count < s.countMin then 0 else count
  }

  function CallAsk(s: Spawner, spawned: nat, reinforceMax: nat, reinforceLive: nat, ceiling: nat, live: nat,
                   word: nat): nat {
    var drawn := Composition.InRange(word, s.countMin, s.countMax);
    Whole(s, Least(Least(Least(drawn, RoomUnder(s.maxLive, spawned)), RoomUnder(reinforceMax, reinforceLive)),
                   RoomUnder(ceiling, live)))
  }

  function ClockAsk(s: Spawner, spawned: nat, ceiling: nat, live: nat, word: nat): nat {
    var drawn := Composition.InRange(word, s.countMin, s.countMax);
    Whole(s, Least(if s.maxLive == 0 then drawn else Least(drawn, RoomUnder(s.maxLive, spawned)),
                   RoomUnder(ceiling, live)))
  }

  /** Under a ceiling: so many more keep within it, or there is none. */
  predicate Fits(ceiling: nat, live: nat, count: nat) {
    count == 0 || ceiling == 0 || live + count <= ceiling
  }

  /** A whole wave, no bigger than drawn, that keeps within all three ceilings. */
  predicate MayCome(s: Spawner, spawned: nat, reinforceMax: nat, reinforceLive: nat, ceiling: nat, live: nat,
                    drawn: nat, n: nat) {
    && s.countMin <= n <= drawn
    && Fits(s.maxLive, spawned, n) && Fits(reinforceMax, reinforceLive, n) && Fits(ceiling, live, n)
  }

  /** How many come: as many as were drawn, or the most that three ceilings let in, and nobody at
      all if that is less than a wave must be. */
  lemma CallAskIs(s: Spawner, spawned: nat, reinforceMax: nat, reinforceLive: nat, ceiling: nat, live: nat, word: nat)
    requires s.countMax <= UNBOUNDED && 0 < s.countMin <= s.countMax
    ensures var n, drawn := CallAsk(s, spawned, reinforceMax, reinforceLive, ceiling, live, word),
                            Composition.InRange(word, s.countMin, s.countMax);
      && (n != 0 ==> MayCome(s, spawned, reinforceMax, reinforceLive, ceiling, live, drawn, n))
      && (forall m: nat :: MayCome(s, spawned, reinforceMax, reinforceLive, ceiling, live, drawn, m) ==> m <= n)
  {
    Composition.InRangeIs(word, s.countMin, s.countMax);
  }

  lemma ClockAskIs(s: Spawner, spawned: nat, ceiling: nat, live: nat, word: nat)
    requires s.countMax <= UNBOUNDED && 0 < s.countMin <= s.countMax
    ensures var n, drawn := ClockAsk(s, spawned, ceiling, live, word),
                            Composition.InRange(word, s.countMin, s.countMax);
      && (n != 0 ==> MayCome(s, spawned, 0, 0, ceiling, live, drawn, n))
      && (forall m: nat :: MayCome(s, spawned, 0, 0, ceiling, live, drawn, m) ==> m <= n)
  {
    Composition.InRangeIs(word, s.countMin, s.countMax);
  }

  // ----- what is remembered ----------------------------------------------------------------------------

  /** Every unit the kernel gave, recorded for carrier `i`. */
  function Recorded(rules: Rules, m: Memory, i: nat, made: seq<Request>): (r: Memory)
    requires i < |m.instances|
    ensures |r.instances| == |m.instances|
  {
    if made == [] then m
    else
      var before, last := Recorded(rules, m, i, made[..|made| - 1]), made[|made| - 1];
      if last.id == 0 then before else PutOut(rules, before, i, last.id, last.template)
  }

  /** Everyone given, and no one else, in the order given: to the carrier's own list, to the shared one
      if it called for them, and to those who may never call if they could. */
  lemma {:induction false} RecordedIs(rules: Rules, m: Memory, i: nat, made: seq<Request>)
    requires i < |m.instances|
    ensures var r, given := Recorded(rules, m, i, made), Given(made);
      && r.instances == m.instances[i := m.instances[i].(spawned := m.instances[i].spawned + given)]
      && r.reinforceLive == m.reinforceLive + (if CallsForHelp(rules, m.instances[i].template) then given else [])
      && r.cannotCall == m.cannotCall + GivenCallers(rules, made)
      && |given| == Granted(made)
  {
    hide CallsForHelp;
    var own := m.instances[i].spawned;
    if made == [] {
      assert own + [] == own;
    } else {
      var front, last := made[..|made| - 1], made[|made| - 1];
      RecordedIs(rules, m, i, front);
      if last.id == 0 {
        assert Given(made) == Given(front) && GivenCallers(rules, made) == GivenCallers(rules, front);
      } else {
        var before := Recorded(rules, m, i, front);
        assert own + Given(made) == before.instances[i].spawned + [last.id];
        assert Recorded(rules, m, i, made) == PutOut(rules, before, i, last.id, last.template);
        assert m.reinforceLive + Given(made) == m.reinforceLive + Given(front) + [last.id];
        assert m.cannotCall + GivenCallers(rules, made)
          == before.cannotCall + if CallsForHelp(rules, last.template) then [last.id] else [];
      }
    }
  }

  /** Those of them that could call for help. */
  function GivenCallers(rules: Rules, made: seq<Request>): (ids: seq<nat>) {
    if made == [] then []
    else
      var last := made[|made| - 1];
      GivenCallers(rules, made[..|made| - 1])
        + if last.id != 0 && CallsForHelp(rules, last.template) then [last.id] else []
  }

  /** And one more wave on the carrier's count, if anyone came. */
  function Waved(rules: Rules, m: Memory, i: nat, made: seq<Request>): (r: Memory)
    requires i < |m.instances|
    ensures |r.instances| == |m.instances|
  {
    var r := Recorded(rules, m, i, made);
    if Granted(made) == 0 then r
    else r.(instances := r.instances[i := r.instances[i].(ordinal := r.instances[i].ordinal + 1)])
  }

  function Waiting(m: Memory, i: nat, wait: nat): (r: Memory)
    requires i < |m.instances|
    ensures |r.instances| == |m.instances|
  {
    m.(instances := m.instances[i := m.instances[i].(wait := wait)])
  }

  // ----- one turn ---------------------------------------------------------------------------------------

  /** Where a pass stands: who is alive, what is remembered and logged, the agents counted, and what the
      kernel has been asked for. */
  datatype Stage = Stage(alive: set<nat>, memory: Memory, log: seq<Event>, live: nat, requests: seq<Request>)

  /** What it was asked for since. */
  function Since(a: Stage, b: Stage): seq<Request> {
    if |a.requests| <= |b.requests| then b.requests[|a.requests|..] else []
  }

  /** A whole wave asked for in order, whatever is refused; all that are given are counted and alive. */
  ghost predicate AskedWave(a: Stage, b: Stage, s: Spawner, n: nat, values: nat -> nat)
    requires Composition.BandsOpen(s.composition)
  {
    && AskedFor(a.requests, b.requests, WaveOf(s.composition, s.countMin, s.countMax, n, values))
    && b.live == a.live + Granted(Since(a, b))
    && b.alive == a.alive + set r | r in Since(a, b) && r.id != 0 :: r.id
  }

  /** A clock that has been counted down fires if it has run down on a carrier that is there: the wave that
      fits is asked for, and if anyone comes it is wound up again. */
  ghost predicate ClockFires(rules: Rules, randomness: (nat, nat) -> nat -> nat, valid: set<nat>, ceiling: nat, i: nat,
                             s: Spawner, a: Stage, b: Stage)
    requires Composition.BandsOpen(s.composition)
  {
    && i < |a.memory.instances|
    && var inst := a.memory.instances[i];
       var values := randomness(inst.carrier, inst.ordinal);
       var n := ClockAsk(s, |inst.spawned|, ceiling, a.live, values(0));
       if inst.wait > 0 || inst.carrier !in a.alive || inst.carrier !in valid || n == 0 then b == a
       else WaveFired(rules, i, s, n, values, a, b)
  }

  ghost predicate WaveFired(rules: Rules, i: nat, s: Spawner, n: nat, values: nat -> nat, a: Stage, b: Stage)
    requires Composition.BandsOpen(s.composition)
  {
    && i < |a.memory.instances| && AskedWave(a, b, s, n, values) && b.log == a.log
    && b.memory == if Granted(Since(a, b)) == 0 then a.memory
                   else Waiting(Waved(rules, a.memory, i, Since(a, b)), i, s.intervalTicks)
  }

  /** A clock's turn: it is counted down, what it has lost is forgotten, and it fires or not. */
  ghost predicate ClockTurn(rules: Rules, randomness: (nat, nat) -> nat -> nat, valid: set<nat>, ceiling: nat, i: nat,
                            a: Stage, b: Stage)
    requires ValidRules(rules)
  {
    && i < |a.memory.instances|
    && var inst := a.memory.instances[i];
       var found := SpawnerOf(rules.carriers, inst.template);
       if found.None? || found.value.trigger != Interval then b == a
       else
         var wound := inst.(wait := if inst.wait == 0 then 0 else inst.wait - 1,
                            spawned := Pruned(inst.spawned, a.alive));
         ClockFires(rules, randomness, valid, ceiling, i, found.value,
                    a.(memory := a.memory.(instances := a.memory.instances[i := wound])), b)
  }

  /** Where a caller's instance is, or is to be. */
  function At(m: Memory, signal: Signal): nat {
    Find(m.instances, signal.netId)
  }

  /** The memory with the caller's instance in it, and its engagement begun if it has just begun. */
  function Met(m: Memory, signal: Signal): (r: Memory)
    ensures At(m, signal) < |r.instances|
  {
    var i := At(m, signal);
    var inst := if i < |m.instances| then m.instances[i]
                else Instance(signal.netId, signal.template, 0, 0, 0, false, []);
    var begun := if signal.started then inst.(calls := 0, refused := false) else inst;
    m.(instances := if i < |m.instances| then m.instances[i := begun] else m.instances + [begun])
  }

  /** The caller's own rule lets it call: it sees its target, its gap is over, it has calls left, it has
      not been refused, and no spawner put it out. */
  predicate MayAsk(m: Memory, i: nat, s: Spawner, signal: Signal)
    requires i < |m.instances|
  {
    var inst := m.instances[i];
    && signal.sees && inst.wait == 0 && !inst.refused && (s.callsPerAlert == 0 || inst.calls < s.callsPerAlert)
    && signal.netId !in m.cannotCall
  }

  /** A call: the wave that fits is asked for; if none does the caller is refused, and if anyone comes the
      call counts and its gap begins. */
  ghost predicate CallTurn(rules: Rules, randomness: (nat, nat) -> nat -> nat, valid: set<nat>, ceiling: nat, now: nat,
                           i: nat, s: Spawner, a: Stage, b: Stage)
    requires Composition.BandsOpen(s.composition)
  {
    && i < |a.memory.instances|
    && var inst := a.memory.instances[i];
       var values := randomness(inst.carrier, inst.ordinal);
       var n := CallAsk(s, |inst.spawned|, rules.reinforceMax, |a.memory.reinforceLive|, ceiling, a.live, values(0));
       if n == 0 then
         b == a.(memory := a.memory.(instances := a.memory.instances[i := inst.(refused := true)]),
                 log := a.log + [Refused(inst.carrier)])
       else if inst.carrier !in a.alive || inst.carrier !in valid then b == a
       else WaveCalled(rules, now, i, s, n, values, a, b)
  }

  ghost predicate WaveCalled(rules: Rules, now: nat, i: nat, s: Spawner, n: nat, values: nat -> nat, a: Stage, b: Stage)
    requires Composition.BandsOpen(s.composition)
  {
    && i < |a.memory.instances| && AskedWave(a, b, s, n, values)
    && if Granted(Since(a, b)) == 0 then b.memory == a.memory && b.log == a.log
       else
         && b.log == a.log + [Called(a.memory.instances[i].carrier, now)]
         && var r := Waiting(Waved(rules, a.memory, i, Since(a, b)), i, s.intervalTicks);
            b.memory == r.(instances := r.instances[i := r.instances[i].(calls := r.instances[i].calls + 1)])
  }

  /** A signal's turn. Only a caller that may ask does; what it has lost is forgotten first. */
  ghost predicate SignalTurn(rules: Rules, randomness: (nat, nat) -> nat -> nat, valid: set<nat>, ceiling: nat,
                             now: nat, signal: Signal, a: Stage, b: Stage)
    requires ValidRules(rules)
  {
    var found := SpawnerOf(rules.carriers, signal.template);
    if found.None? || found.value.trigger != OnAlert then b == a
    else
      var s, i, m := found.value, At(a.memory, signal), Met(a.memory, signal);
      var log := if signal.started then a.log + [Engaged(signal.netId)] else a.log;
      if !MayAsk(m, i, s, signal) then b == a.(memory := m, log := log)
      else
        var kept := m.instances[i].(spawned := Pruned(m.instances[i].spawned, a.alive));
        CallTurn(rules, randomness, valid, ceiling, now, i, s,
                 a.(memory := m.(instances := m.instances[i := kept]), log := log), b)
  }

  // ----- a whole pass ---------------------------------------------------------------------------------------

  /** The clocks that are there. */
  function LiveClocks(rules: Rules, w: World): set<nat> {
    set id | id in w.alive && id in w.templates && OnClock(rules, w.templates[id])
  }

  /** Every clock the query found that had no instance has one now, a whole interval from its first wave. */
  ghost predicate Discovered(rules: Rules, before: seq<Instance>, after: seq<Instance>, live: set<nat>) {
    && before <= after
    && (forall k :: |before| <= k < |after| ==>
          && after[k].carrier in live && OnClock(rules, after[k].template)
          && (forall j :: 0 <= j < k ==> after[j].carrier != after[k].carrier)
          && after[k] == Instance(after[k].carrier, after[k].template, Gap(rules, after[k].template), 0, 0, false, []))
    && forall id :: id in live ==> Serving(after, id)
  }

  /** The instances left once clocks whose carriers are gone are dropped, and nobody else's. */
  function Retired(rules: Rules, instances: seq<Instance>, live: set<nat>): seq<Instance> {
    if instances == [] then []
    else
      var last := instances[|instances| - 1];
      Retired(rules, instances[..|instances| - 1], live)
        + if OnClock(rules, last.template) && last.carrier !in live then [] else [last]
  }

  /** Instance after instance. */
  ghost predicate ClocksRun(rules: Rules, randomness: (nat, nat) -> nat -> nat, valid: set<nat>, ceiling: nat,
                            stages: seq<Stage>)
    requires ValidRules(rules)
  {
    stages != [] && ClocksTo(rules, randomness, valid, ceiling, stages, |stages[0].memory.instances|)
  }

  ghost predicate ClocksTo(rules: Rules, randomness: (nat, nat) -> nat -> nat, valid: set<nat>, ceiling: nat,
                           stages: seq<Stage>, n: nat)
    requires ValidRules(rules)
  {
    && |stages| == n + 1
    && forall i: nat | i < n :: ClockTurn(rules, randomness, valid, ceiling, i, stages[i], stages[i + 1])
  }

  lemma ClocksOn(rules: Rules, randomness: (nat, nat) -> nat -> nat, valid: set<nat>, ceiling: nat,
                 stages: seq<Stage>, n: nat, next: Stage)
    requires ValidRules(rules) && ClocksTo(rules, randomness, valid, ceiling, stages, n)
    requires ClockTurn(rules, randomness, valid, ceiling, n, stages[n], next)
    ensures ClocksTo(rules, randomness, valid, ceiling, stages + [next], n + 1)
  {
    hide ClockTurn, ValidRules;
  }

  /** The clocks' half of a tick. */
  ghost predicate ClocksTicked(rules: Rules, randomness: (nat, nat) -> nat -> nat, valid: set<nat>, ceiling: nat,
                               a: Stage, live: set<nat>, found: seq<Instance>, stages: seq<Stage>, b: Stage)
    requires ValidRules(rules)
  {
    if !exists c :: c in rules.carriers && c.spawner.trigger == Interval then b == a
    else
      && Discovered(rules, a.memory.instances, found, live)
      && ClocksRun(rules, randomness, valid, ceiling, stages) && stages[|stages| - 1] == b
      && stages[0] == a.(memory := a.memory.(instances := Retired(rules, found, live)))
  }

  /** Before the callers: who is gone stops counting, every gap is one tick shorter, and the instances of
      callers that are gone are dropped. */
  function Rested(rules: Rules, m: Memory, alive: set<nat>): Memory {
    Memory(Present(rules, Countdown(rules, m.instances), alive),
           Pruned(m.reinforceLive, alive), Pruned(m.cannotCall, alive))
  }

  function Present(rules: Rules, instances: seq<Instance>, alive: set<nat>): seq<Instance> {
    if instances == [] then []
    else
      var last := instances[|instances| - 1];
      Present(rules, instances[..|instances| - 1], alive)
        + if CallsForHelp(rules, last.template) && last.carrier !in alive then [] else [last]
  }

  ghost predicate InNetIdOrder(signals: seq<Signal>) {
    forall i, j :: 0 <= i < j < |signals| ==> signals[i].netId <= signals[j].netId
  }

  /** Signal after signal, in net id order. */
  ghost predicate SignalsRun(rules: Rules, randomness: (nat, nat) -> nat -> nat, valid: set<nat>, ceiling: nat,
                             now: nat, signals: seq<Signal>, stages: seq<Stage>)
    requires ValidRules(rules)
  {
    InNetIdOrder(signals) && SignalsTo(rules, randomness, valid, ceiling, now, signals, stages, |signals|)
  }

  ghost predicate SignalsTo(rules: Rules, randomness: (nat, nat) -> nat -> nat, valid: set<nat>, ceiling: nat,
                            now: nat, signals: seq<Signal>, stages: seq<Stage>, n: nat)
    requires ValidRules(rules) && n <= |signals|
  {
    && |stages| == n + 1
    && forall i: nat | i < n ::
         SignalTurn(rules, randomness, valid, ceiling, now, signals[i], stages[i], stages[i + 1])
  }

  lemma SignalsOn(rules: Rules, randomness: (nat, nat) -> nat -> nat, valid: set<nat>, ceiling: nat, now: nat,
                  signals: seq<Signal>, stages: seq<Stage>, n: nat, next: Stage)
    requires ValidRules(rules) && n < |signals| && SignalsTo(rules, randomness, valid, ceiling, now, signals, stages, n)
    requires SignalTurn(rules, randomness, valid, ceiling, now, signals[n], stages[n], next)
    ensures SignalsTo(rules, randomness, valid, ceiling, now, signals, stages + [next], n + 1)
  {
    hide SignalTurn, ValidRules;
  }

  /** The callers' half of a tick: rest, and then every signal once. */
  ghost predicate SignalsTicked(rules: Rules, randomness: (nat, nat) -> nat -> nat, valid: set<nat>, ceiling: nat,
                                now: nat, a: Stage, signals: seq<Signal>, ordered: seq<Signal>, stages: seq<Stage>,
                                b: Stage)
    requires ValidRules(rules)
  {
    && multiset(ordered) == multiset(signals) && SignalsRun(rules, randomness, valid, ceiling, now, ordered, stages)
    && stages[0] == a.(memory := Rested(rules, a.memory, a.alive)) && stages[|ordered|] == b
  }

  /** How a tick went: the clocks found, every turn of theirs, where that left things, and every
      signal's turn. */
  datatype Course = Course(live: set<nat>, found: seq<Instance>, clocks: seq<Stage>, between: Stage,
                           ordered: seq<Signal>, calls: seq<Stage>)

  /** Clocks before callers; without rules nothing. */
  ghost predicate Ticked(rules: Rules, randomness: (nat, nat) -> nat -> nat, valid: set<nat>, ceiling: nat, now: nat,
                         signals: seq<Signal>, a: Stage, t: Course, b: Stage)
    requires ValidRules(rules)
  {
    if rules.carriers == [] then b == a
    else
      && ClocksTicked(rules, randomness, valid, ceiling, a, t.live, t.found, t.clocks, t.between)
      && SignalsTicked(rules, randomness, valid, ceiling, now, t.between, signals, t.ordered, t.calls, b)
  }
}
