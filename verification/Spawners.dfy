/** Spawner rules that live on their carriers, by clock or by a call for help: what they
    remember, what has happened, and what every step keeps. */
module Spawners {
  import opened AgentKernel
  import opened Counters
  import opened Wrappers
  import Composition

  datatype Trigger = Interval | OnAlert

  /** A `callsPerAlert` or `maxLive` of 0 is unbounded. */
  datatype Spawner = Spawner(trigger: Trigger, callsPerAlert: nat, intervalTicks: nat, maxLive: nat,
                             countMin: nat, countMax: nat, composition: seq<Composition.Entry>)

  datatype Carrier = Carrier(template: nat, spawner: Spawner)

  datatype Rules = Rules(carriers: seq<Carrier>, reinforceMax: nat)

  datatype Signal = Signal(netId: nat, template: nat, started: bool, sees: bool)

  datatype Instance = Instance(carrier: nat, template: nat, wait: nat, ordinal: nat, calls: nat, refused: bool,
                               spawned: seq<nat>)

  /** The director's memory. */
  datatype Memory = Memory(instances: seq<Instance>, reinforceLive: seq<nat>, cannotCall: seq<nat>)

  datatype Event = Engaged(id: nat) | Called(id: nat, at: nat) | Refused(id: nat)

  /** What has happened so far: who put out whom, and which units answered a call. */
  datatype History = History(now: nat, log: seq<Event>, madeBy: map<nat, nat>, answered: set<nat>)

  // ----- the rules ------------------------------------------------------------------------------

  function SpawnerOf(carriers: seq<Carrier>, template: nat): (s: Option<Spawner>)
    ensures s.Some? ==> exists c :: c in carriers && c.spawner == s.value
  {
    if carriers == [] then None
    else if carriers[0].template == template then
      assert carriers[0] in carriers;
      Some(carriers[0].spawner)
    else
      assert forall c :: c in carriers[1..] ==> c in carriers;
      SpawnerOf(carriers[1..], template)
  }

  predicate ValidSpawner(s: Spawner) {
    && Composition.Valid(s.composition, s.countMin, s.countMax)
    && s.intervalTicks > 0
    && (s.maxLive == 0 || s.countMax <= s.maxLive)
    && (s.trigger == OnAlert && s.callsPerAlert == 0 ==> s.maxLive != 0)
  }

  predicate ValidRules(rules: Rules) {
    forall c :: c in rules.carriers ==> ValidSpawner(c.spawner)
  }

  predicate OnClock(rules: Rules, template: nat) {
    var s := SpawnerOf(rules.carriers, template);
    s.Some? && s.value.trigger == Interval
  }

  predicate CallsForHelp(rules: Rules, template: nat) {
    var s := SpawnerOf(rules.carriers, template);
    s.Some? && s.value.trigger == OnAlert
  }

  /** The first instance of a carrier, or the number of instances. */
  function Find(instances: seq<Instance>, carrier: nat): (i: nat)
    ensures i <= |instances| && (i < |instances| ==> instances[i].carrier == carrier)
    ensures forall j :: 0 <= j < i ==> instances[j].carrier != carrier
  {
    if instances == [] || instances[0].carrier == carrier then 0 else Find(instances[1..], carrier) + 1
  }

  // ----- what the log says --------------------------------------------------------------------------

  /** Calls since this carrier's engagement last started. */
  function CallsSince(log: seq<Event>, id: nat): nat {
    if log == [] then 0
    else
      var last, before := log[|log| - 1], log[..|log| - 1];
      if last.id != id || last.Refused? then CallsSince(before, id)
      else if last.Engaged? then 0
      else CallsSince(before, id) + 1
  }

  /** Whether it was refused, and no engagement has started since. */
  predicate GaveUp(log: seq<Event>, id: nat) {
    log != [] &&
    var last, before := log[|log| - 1], log[..|log| - 1];
    if last.id != id || last.Called? then GaveUp(before, id) else last.Refused?
  }

  function Gap(rules: Rules, template: nat): nat {
    var s := SpawnerOf(rules.carriers, template);
    if s.Some? then s.value.intervalTicks else 0
  }

  // ----- what every step keeps ------------------------------------------------------------------------

  /** Ceilings of one instance: what it has put out and not lost, and its calls. */
  predicate Capped(rules: Rules, inst: Instance) {
    var s := SpawnerOf(rules.carriers, inst.template);
    s.Some? ==>
      && (s.value.maxLive != 0 ==> |inst.spawned| <= s.value.maxLive)
      && (s.value.trigger == OnAlert && s.value.callsPerAlert != 0 ==> inst.calls <= s.value.callsPerAlert)
  }

  /** A living carrier's instance misses none of its own units that are alive. */
  ghost predicate Counts(w: World, h: History, inst: Instance) {
    inst.carrier in w.alive ==>
      forall id :: id in h.madeBy && h.madeBy[id] == inst.carrier && id in w.alive ==> id in inst.spawned
  }

  /** And a living caller's no call of this engagement, nor the gap since the last. */
  ghost predicate Remembers(rules: Rules, w: World, h: History, inst: Instance) {
    CallsForHelp(rules, inst.template) && inst.carrier in w.alive ==>
      && inst.calls == CallsSince(h.log, inst.carrier)
      && inst.refused == GaveUp(h.log, inst.carrier)
      && (forall e :: e in h.log && e.Called? && e.id == inst.carrier ==>
            e.at + Gap(rules, inst.template) <= h.now + inst.wait)
  }

  ghost predicate InstanceOk(rules: Rules, w: World, h: History, inst: Instance) {
    && inst.carrier in w.templates && inst.template == w.templates[inst.carrier]
    && Capped(rules, inst) && Counts(w, h, inst) && Remembers(rules, w, h, inst)
  }

  ghost predicate Distinct(instances: seq<Instance>) {
    forall i, j :: 0 <= i < j < |instances| ==> instances[i].carrier != instances[j].carrier
  }

  ghost predicate InstancesOk(rules: Rules, w: World, h: History, instances: seq<Instance>) {
    Distinct(instances) && forall i :: 0 <= i < |instances| ==> InstanceOk(rules, w, h, instances[i])
  }

  /** The shared budget holds for as long as reinforcements live, not for as long as their
      callers do. */
  ghost predicate Reinforced(rules: Rules, w: World, h: History, live: seq<nat>) {
    && (rules.reinforceMax != 0 ==> |live| <= rules.reinforceMax)
    && (forall id :: id in h.answered && id in w.alive ==> id in live)
  }

  /** No unit a spawner put out has called, and while it lives it is marked never to. */
  ghost predicate NeverChains(rules: Rules, w: World, h: History, cannotCall: seq<nat>) {
    && h.madeBy.Keys <= w.templates.Keys && h.answered <= h.madeBy.Keys
    && (forall id :: id in h.madeBy && id in w.alive && CallsForHelp(rules, w.templates[id]) ==> id in cannotCall)
    && (forall id :: id in h.answered ==> h.madeBy[id] !in h.madeBy)
    && (forall e :: e in h.log && e.Called? ==> e.id !in h.madeBy)
  }

  /** Calls of one carrier, a gap apart, and none after a refusal in the same engagement. */
  ghost predicate LogOk(rules: Rules, w: World, h: History) {
    && (forall e :: e in h.log ==> e.id in w.templates && CallsForHelp(rules, w.templates[e.id]))
    && (forall i, j :: 0 <= i < j < |h.log| && h.log[i].Called? && h.log[j].Called? && h.log[i].id == h.log[j].id ==>
          h.log[i].at + Gap(rules, w.templates[h.log[i].id]) <= h.log[j].at)
    && (forall j :: 0 <= j < |h.log| && h.log[j].Called? ==> !GaveUp(h.log[..j], h.log[j].id))
    && (forall j :: 0 <= j <= |h.log| ==> CallsWithin(rules, w, h.log[..j]))
  }

  /** No engagement of any carrier has more calls than it may. */
  ghost predicate CallsWithin(rules: Rules, w: World, log: seq<Event>) {
    forall id :: id in w.templates ==>
      var s := SpawnerOf(rules.carriers, w.templates[id]);
      s.Some? && s.value.callsPerAlert != 0 ==> CallsSince(log, id) <= s.value.callsPerAlert
  }

  ghost predicate Serving(instances: seq<Instance>, id: nat) {
    exists i :: 0 <= i < |instances| && instances[i].carrier == id
  }

  /** A living caller that has been heard of, and a living carrier of either kind that has
      put anyone out, still has its instance. */
  ghost predicate NoneDropped(rules: Rules, w: World, h: History, instances: seq<Instance>) {
    && (forall e :: e in h.log && e.id in w.alive ==> Serving(instances, e.id))
    && (forall id :: id in h.madeBy ==> h.madeBy[id] in w.templates)
    && (forall id :: id in h.madeBy && h.madeBy[id] in w.alive ==> Serving(instances, h.madeBy[id]))
  }

  ghost predicate Sound(rules: Rules, w: World, h: History, m: Memory) {
    && w.alive <= w.templates.Keys
    && InstancesOk(rules, w, h, m.instances)
    && Reinforced(rules, w, h, m.reinforceLive)
    && NeverChains(rules, w, h, m.cannotCall)
    && LogOk(rules, w, h)
    && NoneDropped(rules, w, h, m.instances)
  }

  // ----- time passing ---------------------------------------------------------------------------------

  lemma {:induction false} NeverHeardOf(log: seq<Event>, id: nat)
    requires forall e :: e in log ==> e.id != id
    ensures CallsSince(log, id) == 0 && !GaveUp(log, id)
  {
    if log != [] {
      assert log[|log| - 1] in log;
      NeverHeardOf(log[..|log| - 1], id);
    }
  }

  lemma LaterKeeps(rules: Rules, w: World, v: World, h: History, m: Memory)
    requires Sound(rules, w, h, m) && Later(w, v)
    ensures Sound(rules, v, h, m)
  {
    LaterInstances(rules, w, v, h, m.instances);
    LaterLog(rules, w, v, h);
    LaterChains(rules, w, v, h, m);
  }

  lemma LaterInstances(rules: Rules, w: World, v: World, h: History, instances: seq<Instance>)
    requires InstancesOk(rules, w, h, instances) && Later(w, v) && h.madeBy.Keys <= w.templates.Keys
    ensures InstancesOk(rules, v, h, instances)
  {
    hide SpawnerOf, CallsForHelp, CallsSince, GaveUp, Gap, Capped, Distinct;
    forall i | 0 <= i < |instances| ensures InstanceOk(rules, v, h, instances[i]) {
      assert InstanceOk(rules, w, h, instances[i]);
    }
  }

  lemma LaterLog(rules: Rules, w: World, v: World, h: History)
    requires LogOk(rules, w, h) && Later(w, v)
    ensures LogOk(rules, v, h)
  {
    hide SpawnerOf, CallsForHelp, CallsSince, GaveUp, Gap, CallsWithin;
    forall i, j | 0 <= i < j < |h.log| && h.log[i].Called? && h.log[j].Called? && h.log[i].id == h.log[j].id
      ensures h.log[i].id in v.templates && h.log[i].at + Gap(rules, v.templates[h.log[i].id]) <= h.log[j].at
    {
      assert h.log[i] in h.log;
    }
    forall j | 0 <= j <= |h.log| ensures CallsWithin(rules, v, h.log[..j]) {
      assert forall e :: e in h.log[..j] ==> e in h.log;
      LaterCalls(rules, w, v, h.log[..j]);
    }
  }

  lemma LaterCalls(rules: Rules, w: World, v: World, log: seq<Event>)
    requires CallsWithin(rules, w, log) && Later(w, v) && forall e :: e in log ==> e.id in w.templates
    ensures CallsWithin(rules, v, log)
  {
    hide SpawnerOf, CallsSince;
    forall id | id in v.templates && id !in w.templates ensures CallsSince(log, id) == 0 {
      NeverHeardOf(log, id);
    }
  }

  lemma LaterChains(rules: Rules, w: World, v: World, h: History, m: Memory)
    requires Later(w, v) && LogOk(rules, w, h)
    requires Reinforced(rules, w, h, m.reinforceLive) && NeverChains(rules, w, h, m.cannotCall)
    requires NoneDropped(rules, w, h, m.instances)
    ensures Reinforced(rules, v, h, m.reinforceLive) && NeverChains(rules, v, h, m.cannotCall)
    ensures NoneDropped(rules, v, h, m.instances)
  {
    hide CallsForHelp, Gap, GaveUp, CallsWithin, Serving;
  }

  // ----- the director's steps ---------------------------------------------------------------------------

  /** An instance replaced by one of the same carrier. */
  lemma UpdateKeeps(rules: Rules, w: World, h: History, m: Memory, i: nat, inst: Instance)
    requires Sound(rules, w, h, m) && i < |m.instances|
    requires inst.carrier == m.instances[i].carrier && InstanceOk(rules, w, h, inst)
    ensures Sound(rules, w, h, m.(instances := m.instances[i := inst]))
  {
    hide InstanceOk, Reinforced, NeverChains, LogOk;
    SameServing(m.instances, m.instances[i := inst]);
  }

  lemma SameServing(s: seq<Instance>, t: seq<Instance>)
    requires |s| == |t| && forall i :: 0 <= i < |s| ==> s[i].carrier == t[i].carrier
    ensures forall id :: Serving(s, id) <==> Serving(t, id)
  {
    forall id ensures Serving(s, id) <==> Serving(t, id) {
      if i :| 0 <= i < |s| && s[i].carrier == id { assert t[i].carrier == id; }
      if i :| 0 <= i < |t| && t[i].carrier == id { assert s[i].carrier == id; }
    }
  }

  /** A carrier's first instance; a caller's starts free to call. */
  lemma AddKeeps(rules: Rules, w: World, h: History, m: Memory, inst: Instance)
    requires Sound(rules, w, h, m) && Find(m.instances, inst.carrier) == |m.instances|
    requires inst.carrier in w.templates && w.templates[inst.carrier] == inst.template
    requires inst.calls == 0 && !inst.refused && inst.spawned == []
    ensures Sound(rules, w, h, m.(instances := m.instances + [inst]))
  {
    hide Reinforced, NeverChains, LogOk, SpawnerOf, Gap;
    NewInstanceOk(rules, w, h, m, inst);
    var added := m.instances + [inst];
    forall id | Serving(m.instances, id) ensures Serving(added, id) {
      var i :| 0 <= i < |m.instances| && m.instances[i].carrier == id;
      assert added[i].carrier == id;
    }
  }

  lemma NewInstanceOk(rules: Rules, w: World, h: History, m: Memory, inst: Instance)
    requires Sound(rules, w, h, m) && Find(m.instances, inst.carrier) == |m.instances|
    requires inst.carrier in w.templates && w.templates[inst.carrier] == inst.template
    requires inst.calls == 0 && !inst.refused && inst.spawned == []
    ensures InstanceOk(rules, w, h, inst)
  {
    hide Reinforced, NeverChains, LogOk, SpawnerOf, Gap, InstancesOk;
    assert !Serving(m.instances, inst.carrier);
    if inst.carrier in w.alive {
      NeverHeardOf(h.log, inst.carrier);
    }
  }

  /** Instances dropped, none of them a living carrier's. */
  function Kept(instances: seq<Instance>, keep: Instance -> bool): (r: seq<Instance>)
    ensures forall i :: 0 <= i < |r| ==> r[i] in instances && keep(r[i])
    ensures forall inst :: inst in instances && keep(inst) ==> inst in r
  {
    if instances == [] then []
    else
      var last := |instances| - 1;
      assert instances == instances[..last] + [instances[last]];
      Kept(instances[..last], keep) + if keep(instances[last]) then [instances[last]] else []
  }

  lemma {:induction false} KeptDistinct(instances: seq<Instance>, keep: Instance -> bool)
    requires Distinct(instances)
    ensures Distinct(Kept(instances, keep))
  {
    if instances != [] {
      var last := |instances| - 1;
      KeptDistinct(instances[..last], keep);
      var front := Kept(instances[..last], keep);
      forall i | 0 <= i < |front| ensures front[i].carrier != instances[last].carrier {
        assert front[i] in instances[..last];
      }
    }
  }

  lemma DropKeeps(rules: Rules, w: World, h: History, m: Memory, keep: Instance -> bool)
    requires Sound(rules, w, h, m)
    requires forall inst :: inst in m.instances && inst.carrier in w.alive ==> keep(inst)
    ensures Sound(rules, w, h, m.(instances := Kept(m.instances, keep)))
  {
    hide InstanceOk, Reinforced, NeverChains, SpawnerOf, Gap, CallsForHelp, CallsWithin, GaveUp, Kept;
    KeptDistinct(m.instances, keep);
    var kept := Kept(m.instances, keep);
    forall id | Serving(m.instances, id) && id in w.alive
      ensures Serving(kept, id)
    {
      var i :| 0 <= i < |m.instances| && m.instances[i].carrier == id;
      assert m.instances[i] in m.instances && InstanceOk(rules, w, h, m.instances[i]);
      InstanceTemplate(rules, w, h, m.instances[i]);
      assert m.instances[i] in kept;
      var k :| 0 <= k < |kept| && kept[k] == m.instances[i];
      assert kept[k].carrier == id;
    }
    forall i | 0 <= i < |kept| ensures InstanceOk(rules, w, h, kept[i]) {
      assert kept[i] in m.instances;
    }
  }

  lemma InstanceTemplate(rules: Rules, w: World, h: History, inst: Instance)
    requires InstanceOk(rules, w, h, inst)
    ensures inst.carrier in w.templates && inst.template == w.templates[inst.carrier]
  {
  }

  /** A list without those that are gone. */
  function Pruned(ids: seq<nat>, alive: set<nat>): (r: seq<nat>)
    ensures |r| <= |ids|
    ensures forall id :: id in r <==> id in ids && id in alive
  {
    if ids == [] then []
    else
      var last := |ids| - 1;
      assert ids == ids[..last] + [ids[last]];
      Pruned(ids[..last], alive) + if ids[last] in alive then [ids[last]] else []
  }

  lemma PruneKeeps(rules: Rules, w: World, h: History, m: Memory)
    requires Sound(rules, w, h, m)
    ensures Sound(rules, w, h, m.(reinforceLive := Pruned(m.reinforceLive, w.alive),
      cannotCall := Pruned(m.cannotCall, w.alive)))
  {
    hide InstancesOk, LogOk, NoneDropped, Pruned, CallsForHelp;
  }

  lemma PruneInstance(rules: Rules, w: World, h: History, inst: Instance)
    requires InstanceOk(rules, w, h, inst)
    ensures InstanceOk(rules, w, h, inst.(spawned := Pruned(inst.spawned, w.alive)))
  {
    hide CallsForHelp, CallsSince, GaveUp, Gap, Pruned, SpawnerOf;
  }

  /** Every caller counts its gap down. */
  function Countdown(rules: Rules, instances: seq<Instance>): (r: seq<Instance>)
    ensures |r| == |instances|
  {
    seq(|instances|, i requires 0 <= i < |instances| =>
      if CallsForHelp(rules, instances[i].template) then instances[i].(wait := Down(instances[i].wait))
        else instances[i])
  }

  lemma CountdownKeeps(rules: Rules, w: World, h: History, m: Memory)
    requires Sound(rules, w, h, m)
    ensures Sound(rules, w, h.(now := h.now + 1), m.(instances := Countdown(rules, m.instances)))
  {
    hide CallsForHelp, InstanceOk, LogOk;
    var later := h.(now := h.now + 1);
    var down := Countdown(rules, m.instances);
    SameServing(m.instances, down);
    forall i | 0 <= i < |down| ensures InstanceOk(rules, w, later, down[i]) {
      assert InstanceOk(rules, w, h, m.instances[i]);
      CountdownOk(rules, w, h, m.instances[i]);
    }
    SameLog(rules, w, h, later);
  }

  lemma CountdownOk(rules: Rules, w: World, h: History, inst: Instance)
    requires InstanceOk(rules, w, h, inst)
    ensures var down := if CallsForHelp(rules, inst.template) then inst.(wait := Down(inst.wait)) else inst;
      InstanceOk(rules, w, h.(now := h.now + 1), down)
  {
    hide CallsForHelp, CallsSince, GaveUp, Gap, SpawnerOf;
  }

  lemma SameLog(rules: Rules, w: World, h: History, k: History)
    requires LogOk(rules, w, h) && h.log == k.log
    ensures LogOk(rules, w, k)
  {
  }

  // ----- putting a unit out -------------------------------------------------------------------------------

  /** A net id nobody here has heard of. */
  ghost predicate Unheard(w: World, h: History, m: Memory, id: nat) {
    && id in w.templates && id !in h.madeBy
    && (forall other :: other in h.madeBy ==> h.madeBy[other] != id)
    && (forall e :: e in h.log ==> e.id != id)
    && (forall i :: 0 <= i < |m.instances| ==> m.instances[i].carrier != id)
  }

  /** One more unit may be put out under the carrier's ceiling and the shared one. */
  predicate HasRoom(rules: Rules, m: Memory, i: nat)
    requires i < |m.instances|
  {
    var s := SpawnerOf(rules.carriers, m.instances[i].template);
    && s.Some?
    && (s.value.maxLive != 0 ==> |m.instances[i].spawned| < s.value.maxLive)
    && (s.value.trigger == OnAlert && rules.reinforceMax != 0 ==> |m.reinforceLive| < rules.reinforceMax)
  }

  function PutOut(rules: Rules, m: Memory, i: nat, id: nat, template: nat): Memory
    requires i < |m.instances|
  {
    var inst := m.instances[i];
    Memory(m.instances[i := inst.(spawned := inst.spawned + [id])],
           if CallsForHelp(rules, inst.template) then m.reinforceLive + [id] else m.reinforceLive,
           if CallsForHelp(rules, template) then m.cannotCall + [id] else m.cannotCall)
  }

  function Made(rules: Rules, h: History, inst: Instance, id: nat): History {
    h.(madeBy := h.madeBy[id := inst.carrier],
       answered := if CallsForHelp(rules, inst.template) then h.answered + {id} else h.answered)
  }

  lemma PutOutKeeps(rules: Rules, w: World, h: History, m: Memory, i: nat, id: nat)
    requires Sound(rules, w, h, m) && Unheard(w, h, m, id) && i < |m.instances| && HasRoom(rules, m, i)
    requires CallsForHelp(rules, m.instances[i].template) ==> m.instances[i].carrier !in h.madeBy
    ensures Sound(rules, w, Made(rules, h, m.instances[i], id), PutOut(rules, m, i, id, w.templates[id]))
  {
    hide CallsForHelp, SpawnerOf, InstancesOk, LogOk, NoneDropped;
    PutOutInstances(rules, w, h, m, i, id);
    PutOutLists(rules, w, h, m, i, id);
    PutOutServed(rules, w, h, m, i, id);
    SameLog(rules, w, h, Made(rules, h, m.instances[i], id));
  }

  lemma PutOutInstances(rules: Rules, w: World, h: History, m: Memory, i: nat, id: nat)
    requires InstancesOk(rules, w, h, m.instances) && i < |m.instances| && HasRoom(rules, m, i)
    ensures InstancesOk(rules, w, Made(rules, h, m.instances[i], id),
      PutOut(rules, m, i, id, w.templates[id]).instances)
    requires id in w.templates
  {
    hide CallsForHelp, CallsSince, GaveUp, Gap, SpawnerOf;
    var k, after := Made(rules, h, m.instances[i], id), PutOut(rules, m, i, id, w.templates[id]).instances;
    forall j | 0 <= j < |after| ensures InstanceOk(rules, w, k, after[j]) {
      assert InstanceOk(rules, w, h, m.instances[j]);
    }
  }

  lemma PutOutLists(rules: Rules, w: World, h: History, m: Memory, i: nat, id: nat)
    requires Reinforced(rules, w, h, m.reinforceLive) && NeverChains(rules, w, h, m.cannotCall)
    requires Unheard(w, h, m, id) && i < |m.instances| && HasRoom(rules, m, i)
    requires CallsForHelp(rules, m.instances[i].template) ==> m.instances[i].carrier !in h.madeBy
    ensures var k := Made(rules, h, m.instances[i], id); var after := PutOut(rules, m, i, id, w.templates[id]);
      Reinforced(rules, w, k, after.reinforceLive) && NeverChains(rules, w, k, after.cannotCall)
  {
    hide SpawnerOf;
  }

  lemma PutOutServed(rules: Rules, w: World, h: History, m: Memory, i: nat, id: nat)
    requires InstancesOk(rules, w, h, m.instances) && NoneDropped(rules, w, h, m.instances)
    requires Unheard(w, h, m, id) && i < |m.instances|
    ensures NoneDropped(rules, w, Made(rules, h, m.instances[i], id),
      PutOut(rules, m, i, id, w.templates[id]).instances)
  {
    hide CallsForHelp, CallsSince, GaveUp, Gap, SpawnerOf, Capped, Remembers;
    SameServing(m.instances, PutOut(rules, m, i, id, w.templates[id]).instances);
    assert InstanceOk(rules, w, h, m.instances[i]);
    assert Serving(m.instances, m.instances[i].carrier);
  }

  // ----- a call, a refusal, a new engagement -------------------------------------------------------------------

  function After(m: Memory, i: nat, e: Event, gap: nat): Memory
    requires i < |m.instances|
  {
    var inst := m.instances[i];
    m.(instances := m.instances[i :=
      match e
      case Engaged(_) => inst.(calls := 0, refused := false)
      case Called(_, _) => inst.(calls := inst.calls + 1, wait := gap)
      case Refused(_) => inst.(refused := true)])
  }

  function Logged(h: History, e: Event): History {
    h.(log := h.log + [e])
  }

  /** When a caller may call: alive, put out by nobody, its gap run down, calls left, and
      not refused since its engagement started. */
  predicate MayCall(rules: Rules, w: World, h: History, inst: Instance) {
    var s := SpawnerOf(rules.carriers, inst.template);
    && s.Some? && inst.carrier in w.alive && inst.carrier !in h.madeBy && inst.wait == 0 && !inst.refused
    && (s.value.callsPerAlert != 0 ==> inst.calls < s.value.callsPerAlert)
  }

  lemma EventKeeps(rules: Rules, w: World, h: History, m: Memory, i: nat, e: Event)
    requires Sound(rules, w, h, m) && i < |m.instances|
    requires e.id == m.instances[i].carrier && CallsForHelp(rules, m.instances[i].template)
    requires e.Called? ==> e.at == h.now && MayCall(rules, w, h, m.instances[i])
    ensures Sound(rules, w, Logged(h, e), After(m, i, e, Gap(rules, m.instances[i].template)))
  {
    hide CallsForHelp, SpawnerOf, InstancesOk, LogOk, NoneDropped, InstanceOk, Capped, Gap;
    assert InstanceOk(rules, w, h, m.instances[i]) by { OneOk(rules, w, h, m.instances, i); }
    EventInstances(rules, w, h, m, i, e);
    EventLog(rules, w, h, m.instances[i], e);
    EventServed(rules, w, h, m, i, e);
    var gap := Gap(rules, m.instances[i].template);
    assert After(m, i, e, gap).reinforceLive == m.reinforceLive;
    EventChains(rules, w, h, m.cannotCall, m.instances[i], e);
  }

  lemma OneOk(rules: Rules, w: World, h: History, instances: seq<Instance>, i: nat)
    requires InstancesOk(rules, w, h, instances) && i < |instances|
    ensures InstanceOk(rules, w, h, instances[i])
  {
  }

  lemma EventChains(rules: Rules, w: World, h: History, cannotCall: seq<nat>, inst: Instance, e: Event)
    requires NeverChains(rules, w, h, cannotCall)
    requires e.Called? ==> MayCall(rules, w, h, inst) && e.id == inst.carrier
    ensures NeverChains(rules, w, Logged(h, e), cannotCall)
  {
    hide CallsForHelp, SpawnerOf;
  }

  lemma EventInstances(rules: Rules, w: World, h: History, m: Memory, i: nat, e: Event)
    requires InstancesOk(rules, w, h, m.instances) && i < |m.instances|
    requires e.id == m.instances[i].carrier && CallsForHelp(rules, m.instances[i].template)
    requires e.Called? ==> e.at == h.now && MayCall(rules, w, h, m.instances[i])
    ensures InstancesOk(rules, w, Logged(h, e), After(m, i, e, Gap(rules, m.instances[i].template)).instances)
  {
    hide CallsForHelp, SpawnerOf, InstanceOk;
    var after := After(m, i, e, Gap(rules, m.instances[i].template)).instances;
    forall j | 0 <= j < |after| ensures InstanceOk(rules, w, Logged(h, e), after[j]) {
      assert InstanceOk(rules, w, h, m.instances[j]);
      if j == i {
        EventOwn(rules, w, h, m.instances[i], e);
      } else {
        EventOther(rules, w, h, m.instances[j], e);
      }
    }
  }

  lemma EventOther(rules: Rules, w: World, h: History, inst: Instance, e: Event)
    requires InstanceOk(rules, w, h, inst) && e.id != inst.carrier
    ensures InstanceOk(rules, w, Logged(h, e), inst)
  {
    hide CallsForHelp, SpawnerOf, Gap;
    assert Logged(h, e).log[..|h.log|] == h.log;
  }

  lemma EventOwn(rules: Rules, w: World, h: History, inst: Instance, e: Event)
    requires InstanceOk(rules, w, h, inst) && e.id == inst.carrier && CallsForHelp(rules, inst.template)
    requires e.Called? ==> e.at == h.now && MayCall(rules, w, h, inst)
    ensures InstanceOk(rules, w, Logged(h, e),
      After(Memory([inst], [], []), 0, e, Gap(rules, inst.template)).instances[0])
  {
    hide SpawnerOf;
    assert Logged(h, e).log[..|h.log|] == h.log;
  }

  lemma EventLog(rules: Rules, w: World, h: History, inst: Instance, e: Event)
    requires LogOk(rules, w, h) && InstanceOk(rules, w, h, inst)
    requires e.id == inst.carrier && CallsForHelp(rules, inst.template)
    requires e.Called? ==> e.at == h.now && MayCall(rules, w, h, inst)
    ensures LogOk(rules, w, Logged(h, e))
  {
    hide SpawnerOf, CallsWithin, CallsSince, GaveUp, Capped;
    var log := Logged(h, e).log;
    assert log[..|h.log|] == h.log && log[..|log|] == log;
    forall j | 0 <= j <= |log| ensures CallsWithin(rules, w, log[..j]) {
      if j <= |h.log| {
        assert log[..j] == h.log[..j];
      } else {
        CallCounted(rules, w, h, inst, e);
      }
    }
    forall j | 0 <= j < |log| && log[j].Called? ensures !GaveUp(log[..j], log[j].id) {
      assert log[..j] == h.log[..j];
    }
    forall k, j | 0 <= k < j < |log| && log[k].Called? && log[j].Called? && log[k].id == log[j].id
      ensures log[k].id in w.templates && log[k].at + Gap(rules, w.templates[log[k].id]) <= log[j].at
    {
      assert log[k] in h.log;
    }
  }

  lemma CallCounted(rules: Rules, w: World, h: History, inst: Instance, e: Event)
    requires LogOk(rules, w, h) && InstanceOk(rules, w, h, inst) && e.id == inst.carrier
    requires CallsForHelp(rules, inst.template)
    requires e.Called? ==> MayCall(rules, w, h, inst)
    ensures CallsWithin(rules, w, h.log + [e])
  {
    hide SpawnerOf, GaveUp, Gap;
    var log := h.log + [e];
    assert log[..|h.log|] == h.log && h.log[..|h.log|] == h.log;
    assert CallsWithin(rules, w, h.log[..|h.log|]);
  }

  lemma EventServed(rules: Rules, w: World, h: History, m: Memory, i: nat, e: Event)
    requires NoneDropped(rules, w, h, m.instances) && i < |m.instances| && e.id == m.instances[i].carrier
    ensures NoneDropped(rules, w, Logged(h, e), After(m, i, e, Gap(rules, m.instances[i].template)).instances)
  {
    hide CallsForHelp, SpawnerOf, Gap;
    SameServing(m.instances, After(m, i, e, Gap(rules, m.instances[i].template)).instances);
    assert Serving(m.instances, e.id);
  }

  // ----- what it comes to ------------------------------------------------------------------------------------------

  lemma {:induction false} NoMoreThanListed(ids: set<nat>, list: seq<nat>)
    requires forall id :: id in ids ==> id in list
    ensures |ids| <= |list|
  {
    if list == [] {
      assert ids == {};
    } else {
      var last := |list| - 1;
      NoMoreThanListed(ids - {list[last]}, list[..last]);
      assert |ids| <= |ids - {list[last]}| + 1;
    }
  }

  ghost function Answering(w: World, h: History): set<nat> {
    set id | id in h.answered && id in w.alive
  }

  ghost function OutFrom(w: World, h: History, carrier: nat): set<nat> {
    set id | id in h.madeBy && h.madeBy[id] == carrier && id in w.alive
  }

  /** The shared ceiling counts every reinforcement alive, whether its caller is or not. */
  lemma SharedCeilingHolds(rules: Rules, w: World, h: History, m: Memory)
    requires Sound(rules, w, h, m) && rules.reinforceMax != 0
    ensures |Answering(w, h)| <= rules.reinforceMax
  {
    NoMoreThanListed(Answering(w, h), m.reinforceLive);
  }

  /** A living carrier, on a clock or calling, never has more units alive than its own
      ceiling. */
  lemma OwnCeilingHolds(rules: Rules, w: World, h: History, m: Memory, carrier: nat)
    requires Sound(rules, w, h, m) && carrier in w.alive
    ensures var s := SpawnerOf(rules.carriers, w.templates[carrier]);
      s.Some? && s.value.maxLive != 0 ==> |OutFrom(w, h, carrier)| <= s.value.maxLive
  {
    hide CallsSince, GaveUp, Gap, SpawnerOf;
    if id :| id in OutFrom(w, h, carrier) {
      assert Serving(m.instances, h.madeBy[id]);
      var i :| 0 <= i < |m.instances| && m.instances[i].carrier == carrier;
      assert InstanceOk(rules, w, h, m.instances[i]);
      NoMoreThanListed(OutFrom(w, h, carrier), m.instances[i].spawned);
    }
  }

  /** No unit that answered a call was put out on behalf of a unit some spawner had put
      out, and no such unit has ever called. */
  lemma CallsNeverChain(rules: Rules, w: World, h: History, m: Memory, unit: nat)
    requires Sound(rules, w, h, m) && unit in h.madeBy
    ensures unit in h.answered ==> h.madeBy[unit] !in h.madeBy
    ensures forall at :: Called(unit, at) !in h.log
  {
  }

  /** Two calls of one carrier are at least its gap apart, and an engagement has no more of
      them than it may. */
  lemma CallsSpaced(rules: Rules, w: World, h: History, m: Memory, i: nat, j: nat)
    requires Sound(rules, w, h, m) && i < j < |h.log| && h.log[i].Called? && h.log[j].Called?
      && h.log[i].id == h.log[j].id
    ensures h.log[i].id in w.templates
    ensures var s := SpawnerOf(rules.carriers, w.templates[h.log[i].id]);
      && s.Some? && h.log[i].at + s.value.intervalTicks <= h.log[j].at
      && (s.value.callsPerAlert != 0 ==> CallsSince(h.log[..j + 1], h.log[j].id) <= s.value.callsPerAlert)
      && !GaveUp(h.log[..j], h.log[j].id)
  {
    hide CallsSince, GaveUp;
    assert h.log[i] in h.log && CallsWithin(rules, w, h.log[..j + 1]);
  }
}
