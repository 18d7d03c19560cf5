/** Missions as state machines: a graph of nodes, each waiting on a condition and possibly
    filling a group when it opens. The kernel's answers to create requests are a given
    stream of net ids in which 0 stands for a refusal. */
module MissionFlow {
  import opened Wrappers

  datatype Condition = GroupEliminated(group: nat) | PlayersAtLeast(count: nat)

  datatype Spawn = Spawn(group: nat, count: nat)

  datatype Node = Node(id: nat, condition: Condition, next: seq<nat>, spawn: Option<Spawn>)

  datatype NodeState = Inactive | Active | Completed

  datatype Status = Running | Finished | Failed

  datatype Group = Group(id: nat, members: seq<nat>, failed: bool)

  datatype Runtime = Runtime(opening: Opening, initialized: bool, wait: nat)

  /** What opening a node can change. `asked` counts the create requests made. */
  datatype Opening = Opening(status: Status, states: seq<NodeState>, groups: seq<Group>, asked: nat)

  /** What one tick sees: who is alive, and how many players. */
  datatype World = World(alive: set<nat>, players: nat)

  datatype Filled = Filled(members: seq<nat>, asked: nat, complete: bool)

  // ----- the graph -------------------------------------------------------------------------

  predicate Edge(rule: seq<Node>, j: nat, k: nat) {
    j < |rule| && k < |rule| && rule[k].id in rule[j].next
  }

  predicate HasPredecessor(rule: seq<Node>, k: nat) {
    exists j: nat | j < |rule| :: Edge(rule, j, k)
  }

  predicate PredecessorsDone(rule: seq<Node>, states: seq<NodeState>, k: nat)
    requires |states| == |rule|
  {
    forall j: nat | j < |rule| :: Edge(rule, j, k) ==> states[j] == Completed
  }

  ghost predicate Walk(rule: seq<Node>, path: seq<nat>) {
    && (forall i :: 0 <= i < |path| ==> path[i] < |rule|)
    && (forall i :: 0 <= i < |path| - 1 ==> Edge(rule, path[i], path[i + 1]))
  }

  /** No walk along the edges comes back to where it was. */
  ghost predicate Acyclic(rule: seq<Node>) {
    forall path: seq<nat> | |path| > 1 && Walk(rule, path) :: path[0] != path[|path| - 1]
  }

  /** What the authoring allows: a node fills the group it waits on and no other node's,
      or it fills none and waits for players. */
  ghost predicate WellFormed(rule: seq<Node>) {
    && (forall k :: 0 <= k < |rule| ==> WellFormedNode(rule[k]))
    && (forall j, k :: 0 <= j < k < |rule| && rule[j].spawn.Some? && rule[k].spawn.Some? ==>
          rule[j].spawn.value.group != rule[k].spawn.value.group)
  }

  predicate WellFormedNode(node: Node) {
    match node.spawn
    case Some(s) => node.condition == GroupEliminated(s.group)
    case None => node.condition.PlayersAtLeast?
  }

  // ----- opening a node ----------------------------------------------------------------------

  /** The first group with this id, or the number of groups. */
  function FindGroup(groups: seq<Group>, id: nat): (i: nat)
    ensures i <= |groups| && (i < |groups| ==> groups[i].id == id)
    ensures forall j :: 0 <= j < i ==> groups[j].id != id
  {
    if groups == [] || groups[0].id == id then 0 else FindGroup(groups[1..], id) + 1
  }

  /** `count` creates, up to the first refusal. */
  function Fill(answers: nat -> nat, asked: nat, count: nat): (f: Filled)
    ensures f.complete ==> |f.members| == count && f.asked == asked + count
    ensures !f.complete ==> |f.members| < count && f.asked == asked + |f.members| + 1 && answers(f.asked - 1) == 0
    ensures forall i :: 0 <= i < |f.members| ==> f.members[i] == answers(asked + i) && f.members[i] != 0
    decreases count
  {
    if count == 0 then Filled([], asked, true)
    else if answers(asked) == 0 then Filled([], asked + 1, false)
    else
      var rest := Fill(answers, asked + 1, count - 1);
      rest.(members := [answers(asked)] + rest.members)
  }

  function FillGroup(o: Opening, spawn: Spawn, answers: nat -> nat): Opening {
    var g := FindGroup(o.groups, spawn.group);
    if g == |o.groups| then o.(status := Failed)
    else
      var filled := Fill(answers, o.asked, spawn.count);
      var group := Group(spawn.group, o.groups[g].members + filled.members, o.groups[g].failed || !filled.complete);
      o.(groups := o.groups[g := group], asked := filled.asked, status := if filled.complete then o.status else Failed)
  }

  function Activate(node: Node, o: Opening, answers: nat -> nat, k: nat): Opening
    requires k < |o.states|
  {
    var open := o.(states := o.states[k := Active]);
    match node.spawn
    case None => if node.condition.PlayersAtLeast? then open else open.(status := Failed)
    case Some(spawn) => FillGroup(open, spawn, answers)
  }

  // ----- one update -----------------------------------------------------------------------------

  function GroupsOf(rule: seq<Node>): seq<Group> {
    if rule == [] then []
    else
      var node := rule[|rule| - 1];
      GroupsOf(rule[..|rule| - 1]) +
        if node.condition.GroupEliminated? then [Group(node.condition.group, [], false)] else []
  }

  /** The roots among the first `k` nodes opened. */
  function OpenRoots(rule: seq<Node>, o: Opening, answers: nat -> nat, k: nat): (r: Opening)
    requires k <= |rule| == |o.states|
    ensures |r.states| == |rule|
  {
    if k == 0 then o
    else
      var before := OpenRoots(rule, o, answers, k - 1);
      if HasPredecessor(rule, k - 1) then before else Activate(rule[k - 1], before, answers, k - 1)
  }

  predicate Holds(node: Node, groups: seq<Group>, w: World) {
    match node.condition
    case PlayersAtLeast(count) => w.players >= count
    case GroupEliminated(id) =>
      var g := FindGroup(groups, id);
      g < |groups| && !groups[g].failed && forall m | m in groups[g].members :: m !in w.alive
  }

  /** Every active node whose condition holds, completed. */
  function Complete(rule: seq<Node>, o: Opening, w: World): (states: seq<NodeState>)
    requires |rule| == |o.states|
    ensures |states| == |rule|
  {
    seq(|rule|, k requires 0 <= k < |rule| =>
      if o.states[k] == Active && Holds(rule[k], o.groups, w) then Completed else o.states[k])
  }

  predicate Opens(rule: seq<Node>, states: seq<NodeState>, k: nat)
    requires k < |rule| == |states|
  {
    states[k] == Inactive && HasPredecessor(rule, k) && PredecessorsDone(rule, states, k)
  }

  /** Those of the first `k` nodes whose predecessors have all completed, opened. */
  function OpenNext(rule: seq<Node>, o: Opening, answers: nat -> nat, k: nat): (r: Opening)
    requires k <= |rule| == |o.states|
    ensures |r.states| == |rule|
  {
    if k == 0 then o
    else
      var before := OpenNext(rule, o, answers, k - 1);
      if Opens(rule, before.states, k - 1) then Activate(rule[k - 1], before, answers, k - 1) else before
  }

  predicate AllCompleted(states: seq<NodeState>) {
    forall k :: 0 <= k < |states| ==> states[k] == Completed
  }

  function Advance(rule: seq<Node>, o: Opening, answers: nat -> nat, w: World): (r: Opening)
    requires |rule| == |o.states|
    ensures |r.states| == |rule|
  {
    var next := OpenNext(rule, o.(states := Complete(rule, o, w)), answers, |rule|);
    if next.status == Running && AllCompleted(next.states) then next.(status := Finished) else next
  }

  function Start(rule: seq<Node>, o: Opening, answers: nat -> nat): (r: Opening)
    ensures |r.states| == |rule|
  {
    OpenRoots(rule, o.(states := seq(|rule|, _ => Inactive), groups := GroupsOf(rule)), answers, |rule|)
  }

  function Pause(interval: nat): nat {
    if interval < 1 then 1 else interval
  }

  predicate Valid(rule: seq<Node>, rt: Runtime) {
    rt.initialized ==> |rt.opening.states| == |rule|
  }

  function Tick(rule: seq<Node>, interval: nat, rt: Runtime, answers: nat -> nat, w: World): (r: Runtime)
    requires Valid(rule, rt)
    ensures Valid(rule, r)
  {
    if rt.opening.status != Running then rt
    else if rt.wait > 0 then rt.(wait := rt.wait - 1)
    else if rt.initialized then Runtime(Advance(rule, rt.opening, answers, w), true, Pause(interval))
    else Runtime(Start(rule, rt.opening, answers), true, Pause(interval))
  }

  function Fresh(): Runtime {
    Runtime(Opening(Running, [], [], 0), false, 0)
  }

  function Run(rule: seq<Node>, interval: nat, rt: Runtime, answers: nat -> nat, worlds: seq<World>): (r: Runtime)
    requires Valid(rule, rt)
    ensures Valid(rule, r)
  {
    if worlds == [] then rt
    else Tick(rule, interval, Run(rule, interval, rt, answers, worlds[..|worlds| - 1]), answers, worlds[|worlds| - 1])
  }

  // ----- order: a node opens only behind its predecessors, and none is forgotten ---------------

  /** An open node has all its predecessors behind it. */
  ghost predicate InOrder(rule: seq<Node>, states: seq<NodeState>)
    requires |states| == |rule|
  {
    forall k: nat | k < |rule| :: states[k] != Inactive ==> PredecessorsDone(rule, states, k)
  }

  /** Among the first `n` nodes, one that has not opened is waiting for a predecessor. */
  ghost predicate NoneForgotten(rule: seq<Node>, states: seq<NodeState>, n: nat)
    requires n <= |rule| == |states|
  {
    forall k: nat | k < n :: states[k] == Inactive ==> HasPredecessor(rule, k) && !PredecessorsDone(rule, states, k)
  }

  lemma ActivateFrame(node: Node, o: Opening, answers: nat -> nat, k: nat)
    requires k < |o.states|
    ensures Activate(node, o, answers, k).states == o.states[k := Active]
    ensures o.status == Failed ==> Activate(node, o, answers, k).status == Failed
  {
  }

  lemma {:induction false} RootsInOrder(rule: seq<Node>, o: Opening, answers: nat -> nat, k: nat)
    requires k <= |rule| == |o.states| && forall i :: 0 <= i < |rule| ==> o.states[i] == Inactive
    ensures var r := OpenRoots(rule, o, answers, k).states;
      forall i: nat | i < |rule| :: r[i] == if i < k && !HasPredecessor(rule, i) then Active else Inactive
  {
    hide HasPredecessor, Activate;
    if k > 0 {
      RootsInOrder(rule, o, answers, k - 1);
      ActivateFrame(rule[k - 1], OpenRoots(rule, o, answers, k - 1), answers, k - 1);
    }
  }

  /** What the opening pass makes of each node. */
  lemma {:induction false} NextStates(rule: seq<Node>, o: Opening, answers: nat -> nat, k: nat)
    requires k <= |rule| == |o.states|
    ensures var r := OpenNext(rule, o, answers, k).states;
      forall i: nat | i < |rule| :: r[i] == if i < k && Opens(rule, o.states, i) then Active else o.states[i]
  {
    hide HasPredecessor, PredecessorsDone, Activate;
    if k > 0 {
      NextStates(rule, o, answers, k - 1);
      var before := OpenNext(rule, o, answers, k - 1);
      ActivateFrame(rule[k - 1], before, answers, k - 1);
      SameDone(rule, o.states, before.states, k - 1);
    }
  }

  lemma SameDone(rule: seq<Node>, s: seq<NodeState>, t: seq<NodeState>, k: nat)
    requires k < |rule| == |s| == |t| && s[k] == t[k]
    requires forall i :: 0 <= i < |rule| ==> (s[i] == Completed <==> t[i] == Completed)
    ensures Opens(rule, s, k) <==> Opens(rule, t, k)
  {
    hide Edge, HasPredecessor;
  }

  lemma StartKeepsOrder(rule: seq<Node>, o: Opening, answers: nat -> nat)
    ensures var r := Start(rule, o, answers).states;
      InOrder(rule, r) && NoneForgotten(rule, r, |rule|) && forall k :: 0 <= k < |rule| ==> r[k] != Completed
  {
    hide Edge;
    RootsInOrder(rule, o.(states := seq(|rule|, _ => Inactive), groups := GroupsOf(rule)), answers, |rule|);
  }

  predicate Moves(before: NodeState, holds: bool, after: NodeState) {
    match before
    case Completed => after == Completed
    case Active => after == if holds then Completed else Active
    case Inactive => after != Completed
  }

  /** One update: states only move forward, by one step, into completion only where the
      condition held; order is kept, and nobody who could open is left behind. */
  lemma AdvanceKeepsOrder(rule: seq<Node>, o: Opening, answers: nat -> nat, w: World)
    requires |rule| == |o.states| && InOrder(rule, o.states) && NoneForgotten(rule, o.states, |rule|)
    ensures var r := Advance(rule, o, answers, w).states;
      InOrder(rule, r) && NoneForgotten(rule, r, |rule|)
    ensures var r := Advance(rule, o, answers, w).states;
      forall k: nat | k < |rule| :: Moves(o.states[k], Holds(rule[k], o.groups, w), r[k])
  {
    hide Edge, Holds, HasPredecessor, OpenNext, AllCompleted;
    var done := o.(states := Complete(rule, o, w));
    NextStates(rule, done, answers, |rule|);
    OpenedInOrder(rule, done.states, OpenNext(rule, done, answers, |rule|).states);
  }

  lemma OpenedInOrder(rule: seq<Node>, s: seq<NodeState>, t: seq<NodeState>)
    requires |rule| == |s| == |t| && InOrder(rule, s)
    requires forall i: nat | i < |rule| :: t[i] == if Opens(rule, s, i) then Active else s[i]
    requires forall k: nat | k < |rule| :: s[k] == Inactive ==> HasPredecessor(rule, k)
    ensures InOrder(rule, t) && NoneForgotten(rule, t, |rule|)
  {
    hide Edge, HasPredecessor;
  }

  ghost predicate Orderly(rule: seq<Node>, rt: Runtime) {
    && Valid(rule, rt)
    && (rt.initialized ==> InOrder(rule, rt.opening.states) && NoneForgotten(rule, rt.opening.states, |rule|))
  }

  /** Over a whole run, for any graph, any kernel answers and anything that happens: a node
      opens only once every node pointing at it has completed. */
  lemma {:induction false} OpensInOrder(rule: seq<Node>, interval: nat, rt: Runtime, answers: nat -> nat,
                                        worlds: seq<World>)
    requires Orderly(rule, rt)
    ensures Orderly(rule, Run(rule, interval, rt, answers, worlds))
  {
    hide InOrder, NoneForgotten, Advance, Start;
    if worlds != [] {
      OpensInOrder(rule, interval, rt, answers, worlds[..|worlds| - 1]);
      var before := Run(rule, interval, rt, answers, worlds[..|worlds| - 1]);
      StartKeepsOrder(rule, before.opening, answers);
      if before.initialized {
        AdvanceKeepsOrder(rule, before.opening, answers, worlds[|worlds| - 1]);
      }
    }
  }

  // ----- no deadlock ------------------------------------------------------------------------------

  lemma Pending(rule: seq<Node>, states: seq<NodeState>, k: nat) returns (j: nat)
    requires |rule| == |states| && NoneForgotten(rule, states, |rule|)
    requires k < |rule| && states[k] == Inactive
    ensures j < |rule| && Edge(rule, j, k) && states[j] != Completed
  {
    hide Edge;
    assert !PredecessorsDone(rule, states, k);
    j :| j < |rule| && Edge(rule, j, k) && states[j] != Completed;
  }

  /** Where nothing is active and something is left to do, the edges can be followed
      backwards for ever. */
  lemma {:induction false} WalkBack(rule: seq<Node>, states: seq<NodeState>, k: nat, n: nat) returns (path: seq<nat>)
    requires |rule| == |states| && NoneForgotten(rule, states, |rule|)
    requires forall i :: 0 <= i < |rule| ==> states[i] != Active
    requires k < |rule| && states[k] == Inactive
    ensures |path| == n + 1 && Walk(rule, path) && path[n] == k
    decreases n
  {
    hide Edge, NoneForgotten;
    path := [k];
    if n > 0 {
      var j := Pending(rule, states, k);
      var before := WalkBack(rule, states, j, n - 1);
      path := before + [k];
    }
  }

  lemma {:induction false} Pigeonhole(s: seq<nat>, n: nat) returns (i: nat, j: nat)
    requires |s| > n && forall k :: 0 <= k < |s| ==> s[k] < n
    ensures i < j < |s| && s[i] == s[j]
    decreases n
  {
    if k: nat :| k < |s| - 1 && s[k] == s[|s| - 1] {
      i, j := k, |s| - 1;
    } else {
      var last, m := s[|s| - 1], n - 1;
      var rest := seq(|s| - 1, k requires 0 <= k < |s| - 1 => if s[k] == m then last else s[k]);
      i, j := Pigeonhole(rest, m);
    }
  }

  /** Where nothing waits and something is left, everyone left was held up by one before it,
      and among more steps than nodes some node comes twice. */
  lemma FindLoop(rule: seq<Node>, states: seq<NodeState>) returns (loop: seq<nat>)
    requires |rule| == |states| && NoneForgotten(rule, states, |rule|)
    requires !AllCompleted(states) && forall k :: 0 <= k < |rule| ==> states[k] != Active
    ensures |loop| > 1 && Walk(rule, loop) && loop[0] == loop[|loop| - 1]
  {
    hide Edge, NoneForgotten;
    var k: nat :| k < |states| && states[k] != Completed;
    var path := WalkBack(rule, states, k, |rule|);
    var i, j := Pigeonhole(path, |rule|);
    loop := path[i..j + 1];
  }

  /** On an acyclic graph an unfinished flow always has a node that is waiting on its own
      condition: it cannot hang on its own edges. */
  lemma NoDeadlock(rule: seq<Node>, states: seq<NodeState>)
    requires Acyclic(rule) && |rule| == |states| && NoneForgotten(rule, states, |rule|)
    requires !AllCompleted(states)
    ensures exists k :: 0 <= k < |rule| && states[k] == Active
  {
    hide Edge, NoneForgotten, Walk;
    if forall k :: 0 <= k < |rule| ==> states[k] != Active {
      var loop := FindLoop(rule, states);
    }
  }

  // ----- each group is filled once ------------------------------------------------------------------

  function GroupAt(groups: seq<Group>, id: nat): Option<Group> {
    var g := FindGroup(groups, id);
    if g == |groups| then None else Some(groups[g])
  }

  /** The group of node `k`: empty until the node opens, then filled with exactly the
      number of members it was to have, unless the kernel refused one. */
  ghost predicate FilledOnce(node: Node, state: NodeState, o: Opening, answers: nat -> nat) {
    node.spawn.Some? ==>
      var group := GroupAt(o.groups, node.spawn.value.group);
      && group.Some?
      && (state == Inactive ==> group.value == Group(node.spawn.value.group, [], false))
      && (state != Inactive && o.status != Failed ==>
            && !group.value.failed && |group.value.members| == node.spawn.value.count
            && 0 !in group.value.members && HandedOut(group.value.members, answers))
  }

  /** The kernel's answers to as many creates in a row. */
  ghost predicate HandedOut(members: seq<nat>, answers: nat -> nat) {
    exists first: nat :: Answered(members, answers, first)
  }

  predicate Answered(members: seq<nat>, answers: nat -> nat, first: nat) {
    forall i :: 0 <= i < |members| ==> members[i] == answers(first + i)
  }

  ghost predicate AllFilledOnce(rule: seq<Node>, o: Opening, answers: nat -> nat) {
    |o.states| == |rule| && forall k :: 0 <= k < |rule| ==> FilledOnce(rule[k], o.states[k], o, answers)
  }

  lemma {:induction false} GroupsFound(rule: seq<Node>, id: nat)
    requires exists node :: node in rule && node.condition == GroupEliminated(id)
    ensures GroupAt(GroupsOf(rule), id) == Some(Group(id, [], false))
  {
    var node, before := rule[|rule| - 1], rule[..|rule| - 1];
    var earlier := GroupsOf(before);
    assert rule == before + [node];
    if exists other :: other in before && other.condition == GroupEliminated(id) {
      GroupsFound(before, id);
      FoundInFront(earlier, GroupsOf(rule)[|earlier|..], id);
      assert GroupsOf(rule) == earlier + GroupsOf(rule)[|earlier|..];
    } else {
      FoundBehind(before, id);
      NotFoundInFront(earlier, [Group(id, [], false)], id);
    }
  }

  lemma FirstWith(groups: seq<Group>, id: nat, i: nat)
    requires i <= |groups| && (i < |groups| ==> groups[i].id == id)
    requires forall j :: 0 <= j < i ==> groups[j].id != id
    ensures FindGroup(groups, id) == i
  {
  }

  lemma FoundInFront(front: seq<Group>, back: seq<Group>, id: nat)
    requires FindGroup(front, id) < |front|
    ensures FindGroup(front + back, id) == FindGroup(front, id)
  {
    FirstWith(front + back, id, FindGroup(front, id));
  }

  lemma NotFoundInFront(front: seq<Group>, back: seq<Group>, id: nat)
    requires FindGroup(front, id) == |front| && |back| > 0 && back[0].id == id
    ensures FindGroup(front + back, id) == |front|
  {
    FirstWith(front + back, id, |front|);
  }

  lemma {:induction false} FoundBehind(rule: seq<Node>, id: nat)
    requires !exists node :: node in rule && node.condition == GroupEliminated(id)
    ensures FindGroup(GroupsOf(rule), id) == |GroupsOf(rule)|
  {
    if rule != [] {
      var node, before := rule[|rule| - 1], rule[..|rule| - 1];
      FoundBehind(before, id);
      assert node in rule;
      FirstWith(GroupsOf(rule), id, |GroupsOf(rule)|);
    }
  }

  /** Filling one group leaves every other one as it was. */
  lemma OtherGroupsStay(o: Opening, spawn: Spawn, answers: nat -> nat, id: nat)
    requires id != spawn.group
    ensures GroupAt(FillGroup(o, spawn, answers).groups, id) == GroupAt(o.groups, id)
  {
    var g := FindGroup(o.groups, spawn.group);
    if g < |o.groups| {
      var after := FillGroup(o, spawn, answers).groups;
      UpdatedElsewhere(o.groups, after[g], g, id);
    }
  }

  lemma UpdatedElsewhere(groups: seq<Group>, group: Group, g: nat, id: nat)
    requires g < |groups| && groups[g].id == group.id != id
    ensures FindGroup(groups[g := group], id) == FindGroup(groups, id) != g
  {
    FirstWith(groups[g := group], id, FindGroup(groups, id));
  }

  lemma FilledGroup(o: Opening, spawn: Spawn, answers: nat -> nat)
    requires GroupAt(o.groups, spawn.group) == Some(Group(spawn.group, [], false))
    ensures var r := FillGroup(o, spawn, answers);
      var group := GroupAt(r.groups, spawn.group);
      && group.Some? && r.states == o.states
      && (r.status != Failed ==>
        && !group.value.failed && |group.value.members| == spawn.count && 0 !in group.value.members
        && HandedOut(group.value.members, answers))
      && (o.status == Failed ==> r.status == Failed)
  {
    var g := FindGroup(o.groups, spawn.group);
    var r := FillGroup(o, spawn, answers);
    FirstWith(r.groups, spawn.group, g);
    assert o.groups[g].members == [];
    assert Answered(r.groups[g].members, answers, o.asked);
  }

  lemma ActivateFillsOnce(rule: seq<Node>, o: Opening, answers: nat -> nat, k: nat)
    requires WellFormed(rule) && AllFilledOnce(rule, o, answers) && k < |rule| && o.states[k] == Inactive
    ensures AllFilledOnce(rule, Activate(rule[k], o, answers, k), answers)
  {
    ActivateFrame(rule[k], o, answers, k);
    hide GroupAt, FillGroup;
    var r := Activate(rule[k], o, answers, k);
    var open := o.(states := o.states[k := Active]);
    forall i | 0 <= i < |rule| ensures FilledOnce(rule[i], r.states[i], r, answers) {
      assert FilledOnce(rule[i], o.states[i], o, answers) && FilledOnce(rule[k], o.states[k], o, answers);
      assert WellFormedNode(rule[k]);
      if rule[k].spawn.Some? {
        FilledGroup(open, rule[k].spawn.value, answers);
        if i != k && rule[i].spawn.Some? {
          OtherGroupsStay(open, rule[k].spawn.value, answers, rule[i].spawn.value.group);
        }
      }
    }
  }

  lemma {:induction false} RootsFillOnce(rule: seq<Node>, o: Opening, answers: nat -> nat, k: nat)
    requires WellFormed(rule) && AllFilledOnce(rule, o, answers) && k <= |rule|
    requires forall i :: 0 <= i < |rule| ==> o.states[i] == Inactive
    ensures AllFilledOnce(rule, OpenRoots(rule, o, answers, k), answers)
  {
    hide HasPredecessor, Activate, AllFilledOnce, WellFormed;
    assert |o.states| == |rule| by { StatesMatch(rule, o, answers); }
    if k > 0 {
      RootsFillOnce(rule, o, answers, k - 1);
      RootsInOrder(rule, o, answers, k - 1);
      if !HasPredecessor(rule, k - 1) {
        ActivateFillsOnce(rule, OpenRoots(rule, o, answers, k - 1), answers, k - 1);
      }
    }
  }

  lemma StatesMatch(rule: seq<Node>, o: Opening, answers: nat -> nat)
    requires AllFilledOnce(rule, o, answers)
    ensures |o.states| == |rule|
  {
  }

  lemma {:induction false} NextFillsOnce(rule: seq<Node>, o: Opening, answers: nat -> nat, k: nat)
    requires WellFormed(rule) && AllFilledOnce(rule, o, answers) && k <= |rule|
    ensures AllFilledOnce(rule, OpenNext(rule, o, answers, k), answers)
  {
    hide HasPredecessor, PredecessorsDone, Activate, AllFilledOnce, WellFormed;
    StatesMatch(rule, o, answers);
    if k > 0 {
      NextFillsOnce(rule, o, answers, k - 1);
      if Opens(rule, OpenNext(rule, o, answers, k - 1).states, k - 1) {
        ActivateFillsOnce(rule, OpenNext(rule, o, answers, k - 1), answers, k - 1);
      }
    }
  }

  lemma AdvanceFillsOnce(rule: seq<Node>, o: Opening, answers: nat -> nat, w: World)
    requires WellFormed(rule) && AllFilledOnce(rule, o, answers)
    ensures AllFilledOnce(rule, Advance(rule, o, answers, w), answers)
  {
    hide OpenNext, GroupAt, Holds, WellFormed, AllCompleted;
    var done := o.(states := Complete(rule, o, w));
    forall k | 0 <= k < |rule| ensures FilledOnce(rule[k], done.states[k], done, answers) {
      assert FilledOnce(rule[k], o.states[k], o, answers);
    }
    NextFillsOnce(rule, done, answers, |rule|);
    var next := OpenNext(rule, done, answers, |rule|);
    if next.status == Running {
      forall k | 0 <= k < |rule| ensures FilledOnce(rule[k], next.states[k], next.(status := Finished), answers) {
        assert FilledOnce(rule[k], next.states[k], next, answers);
      }
    }
  }

  lemma StartFillsOnce(rule: seq<Node>, o: Opening, answers: nat -> nat)
    requires WellFormed(rule)
    ensures AllFilledOnce(rule, Start(rule, o, answers), answers)
  {
    hide OpenRoots, GroupAt, GroupsOf;
    var start := o.(states := seq(|rule|, _ => Inactive), groups := GroupsOf(rule));
    forall k | 0 <= k < |rule| ensures FilledOnce(rule[k], start.states[k], start, answers) {
      assert WellFormedNode(rule[k]) && rule[k] in rule;
      if rule[k].spawn.Some? {
        GroupsFound(rule, rule[k].spawn.value.group);
      }
    }
    RootsFillOnce(rule, start, answers, |rule|);
  }

  ghost predicate Filling(rule: seq<Node>, rt: Runtime, answers: nat -> nat) {
    Valid(rule, rt) && (rt.initialized ==> AllFilledOnce(rule, rt.opening, answers))
  }

  /** Over a whole run no wave is spawned twice: an open node's group holds exactly the
      members it was to have, however long it has been open. */
  lemma {:induction false} SpawnsOnce(rule: seq<Node>, interval: nat, rt: Runtime, answers: nat -> nat,
                                      worlds: seq<World>)
    requires WellFormed(rule) && Filling(rule, rt, answers)
    ensures Filling(rule, Run(rule, interval, rt, answers, worlds), answers)
  {
    hide Advance, Start, WellFormed, AllFilledOnce;
    if worlds != [] {
      var before := Run(rule, interval, rt, answers, worlds[..|worlds| - 1]);
      SpawnsOnce(rule, interval, rt, answers, worlds[..|worlds| - 1]);
      StartFillsOnce(rule, before.opening, answers);
      if before.initialized {
        AdvanceFillsOnce(rule, before.opening, answers, worlds[|worlds| - 1]);
      }
    }
  }

  // ----- failing, and finishing ----------------------------------------------------------------------

  predicate Refused(answers: nat -> nat, i: nat) {
    answers(i) == 0
  }

  /** Opening a node fails the flow exactly where it waits on a group it does not fill, its
      group is not there, or the kernel refuses one of its members. */
  lemma ActivateFails(node: Node, o: Opening, answers: nat -> nat, k: nat)
    requires k < |o.states|
    ensures Activate(node, o, answers, k).status == Failed <==>
      || o.status == Failed
      || (node.spawn.None? && node.condition.GroupEliminated?)
      || (node.spawn.Some? && GroupAt(o.groups, node.spawn.value.group).None?)
      || (node.spawn.Some? && exists i | o.asked <= i < o.asked + node.spawn.value.count :: Refused(answers, i))
  {
    if node.spawn.Some? {
      var count := node.spawn.value.count;
      var filled := Fill(answers, o.asked, count);
      if filled.complete {
        forall i | o.asked <= i < o.asked + count ensures !Refused(answers, i) {
          assert filled.members[i - o.asked] == answers(o.asked + (i - o.asked));
        }
      } else {
        assert Refused(answers, o.asked + |filled.members|);
      }
    }
  }

  /** A wave that could not be filled never reads as cleared. */
  lemma HalfFilledNeverCleared(o: Opening, spawn: Spawn, answers: nat -> nat, node: Node, w: World)
    requires GroupAt(o.groups, spawn.group).Some? && !Fill(answers, o.asked, spawn.count).complete
    requires node.condition == GroupEliminated(spawn.group)
    ensures !Holds(node, FillGroup(o, spawn, answers).groups, w)
  {
    var g := FindGroup(o.groups, spawn.group);
    FirstWith(FillGroup(o, spawn, answers).groups, spawn.group, g);
  }

  ghost predicate NoneRefused(answers: nat -> nat) {
    forall i :: !Refused(answers, i)
  }

  lemma {:induction false} RootsOpen(rule: seq<Node>, o: Opening, answers: nat -> nat, k: nat)
    requires WellFormed(rule) && AllFilledOnce(rule, o, answers) && NoneRefused(answers) && k <= |rule|
    requires o.status == Running && forall i :: 0 <= i < |rule| ==> o.states[i] == Inactive
    ensures OpenRoots(rule, o, answers, k).status != Failed
  {
    hide HasPredecessor, Activate, GroupAt, NoneRefused;
    if k > 0 {
      RootsOpen(rule, o, answers, k - 1);
      RootsFillOnce(rule, o, answers, k - 1);
      OpensFine(rule, OpenRoots(rule, o, answers, k - 1), answers, k - 1);
    }
  }

  lemma OpensFine(rule: seq<Node>, o: Opening, answers: nat -> nat, k: nat)
    requires WellFormed(rule) && AllFilledOnce(rule, o, answers) && NoneRefused(answers) && k < |rule|
    ensures o.status != Failed ==> Activate(rule[k], o, answers, k).status != Failed
  {
    hide GroupAt, Activate;
    ActivateFails(rule[k], o, answers, k);
    assert FilledOnce(rule[k], o.states[k], o, answers) && WellFormedNode(rule[k]);
  }

  lemma {:induction false} NextOpens(rule: seq<Node>, o: Opening, answers: nat -> nat, k: nat)
    requires WellFormed(rule) && AllFilledOnce(rule, o, answers) && NoneRefused(answers) && k <= |rule|
    requires o.status == Running
    ensures OpenNext(rule, o, answers, k).status != Failed
  {
    hide Opens, Activate, GroupAt, NoneRefused;
    if k > 0 {
      NextOpens(rule, o, answers, k - 1);
      NextFillsOnce(rule, o, answers, k - 1);
      OpensFine(rule, OpenNext(rule, o, answers, k - 1), answers, k - 1);
    }
  }

  /** How many nodes are not completed. */
  function Left(states: seq<NodeState>): nat {
    if states == [] then 0
    else Left(states[..|states| - 1]) + if states[|states| - 1] == Completed then 0 else 1
  }

  lemma {:induction false} LeftBounds(states: seq<NodeState>)
    ensures Left(states) <= |states| && (Left(states) == 0 <==> AllCompleted(states))
  {
    if states != [] {
      LeftBounds(states[..|states| - 1]);
      assert forall k :: 0 <= k < |states| - 1 ==> states[..|states| - 1][k] == states[k];
    }
  }

  lemma {:induction false} LeftShrinks(s: seq<NodeState>, t: seq<NodeState>)
    requires |s| == |t| && forall k :: 0 <= k < |s| && s[k] == Completed ==> t[k] == Completed
    ensures Left(t) <= Left(s)
    ensures (exists k :: 0 <= k < |s| && s[k] != Completed && t[k] == Completed) ==> Left(t) < Left(s)
  {
    if s != [] {
      LeftShrinks(s[..|s| - 1], t[..|t| - 1]);
      if k :| 0 <= k < |s| - 1 && s[k] != Completed && t[k] == Completed {
        assert s[..|s| - 1][k] != Completed && t[..|t| - 1][k] == Completed;
      }
    }
  }

  /** Every node that is open has what it waits for. */
  ghost predicate Favourable(rule: seq<Node>, o: Opening, w: World)
    requires |rule| == |o.states|
  {
    forall k :: 0 <= k < |rule| && o.states[k] == Active ==> Holds(rule[k], o.groups, w)
  }

  /** Some open node has what it waits for, or nothing is left to wait for. */
  ghost predicate Fruitful(rule: seq<Node>, o: Opening, w: World)
    requires |rule| == |o.states|
  {
    AllCompleted(o.states) || exists k :: 0 <= k < |rule| && o.states[k] == Active && Holds(rule[k], o.groups, w)
  }

  /** On an acyclic graph an update that finds every open node's condition met finds one. */
  lemma FavourableIsFruitful(rule: seq<Node>, o: Opening, w: World)
    requires |rule| == |o.states| && NoneForgotten(rule, o.states, |rule|)
    requires Acyclic(rule) && Favourable(rule, o, w)
    ensures Fruitful(rule, o, w)
  {
    hide Acyclic, NoneForgotten, Holds;
    if !AllCompleted(o.states) {
      NoDeadlock(rule, o.states);
    }
  }

  /** An update that finds the condition of some open node met completes a node. */
  lemma AdvanceGetsOn(rule: seq<Node>, o: Opening, answers: nat -> nat, w: World)
    requires |rule| == |o.states| && InOrder(rule, o.states) && NoneForgotten(rule, o.states, |rule|)
    requires Fruitful(rule, o, w) && !AllCompleted(o.states)
    ensures Left(Advance(rule, o, answers, w).states) < Left(o.states)
  {
    hide InOrder, NoneForgotten, Holds, Advance;
    AdvanceLosesNone(rule, o, answers, w);
    AdvanceKeepsOrder(rule, o, answers, w);
    var k: nat :| k < |rule| && o.states[k] == Active && Holds(rule[k], o.groups, w);
    var r := Advance(rule, o, answers, w).states;
    assert Moves(o.states[k], Holds(rule[k], o.groups, w), r[k]);
    LeftShrinks(o.states, r);
  }

  lemma AdvanceLosesNone(rule: seq<Node>, o: Opening, answers: nat -> nat, w: World)
    requires |rule| == |o.states| && InOrder(rule, o.states) && NoneForgotten(rule, o.states, |rule|)
    ensures var r := Advance(rule, o, answers, w).states;
      (forall i :: 0 <= i < |rule| && o.states[i] == Completed ==> r[i] == Completed) && Left(r) <= Left(o.states)
  {
    hide InOrder, NoneForgotten, Holds, Advance;
    AdvanceKeepsOrder(rule, o, answers, w);
    var r := Advance(rule, o, answers, w).states;
    forall i: nat | i < |rule| && o.states[i] == Completed ensures r[i] == Completed {
      assert Moves(o.states[i], Holds(rule[i], o.groups, w), r[i]);
    }
    LeftShrinks(o.states, r);
  }

  lemma StartsFine(rule: seq<Node>, o: Opening, answers: nat -> nat)
    requires WellFormed(rule) && NoneRefused(answers) && o.status == Running
    ensures Start(rule, o, answers).status == Running
  {
    hide OpenRoots, GroupAt, GroupsOf, NoneRefused;
    var start := o.(states := seq(|rule|, _ => Inactive), groups := GroupsOf(rule));
    forall k | 0 <= k < |rule| ensures FilledOnce(rule[k], start.states[k], start, answers) {
      assert WellFormedNode(rule[k]) && rule[k] in rule;
      if rule[k].spawn.Some? {
        GroupsFound(rule, rule[k].spawn.value.group);
      }
    }
    RootsOpen(rule, start, answers, |rule|);
    RootsStatus(rule, start, answers, |rule|);
  }

  lemma AdvancesFine(rule: seq<Node>, o: Opening, answers: nat -> nat, w: World)
    requires WellFormed(rule) && AllFilledOnce(rule, o, answers) && NoneRefused(answers) && o.status == Running
    ensures Advance(rule, o, answers, w).status != Failed
  {
    hide OpenNext, GroupAt, Holds, WellFormed, AllCompleted, NoneRefused;
    var done := o.(states := Complete(rule, o, w));
    forall k | 0 <= k < |rule| ensures FilledOnce(rule[k], done.states[k], done, answers) {
      assert FilledOnce(rule[k], o.states[k], o, answers);
    }
    NextOpens(rule, done, answers, |rule|);
  }

  lemma AdvanceFinishes(rule: seq<Node>, o: Opening, answers: nat -> nat, w: World)
    requires |rule| == |o.states|
    ensures Advance(rule, o, answers, w).status == Running ==> !AllCompleted(Advance(rule, o, answers, w).states)
  {
    hide OpenNext, Complete;
  }

  /** The next tick looks at the conditions. */
  predicate Looking(rt: Runtime) {
    rt.initialized && rt.opening.status == Running && rt.wait == 0
  }

  /** How many ticks of a fresh flow looked at the conditions. */
  function Looks(rule: seq<Node>, interval: nat, answers: nat -> nat, worlds: seq<World>): nat {
    if worlds == [] then 0
    else
      var n := |worlds| - 1;
      Looks(rule, interval, answers, worlds[..n]) +
        if Looking(Run(rule, interval, Fresh(), answers, worlds[..n])) then 1 else 0
  }

  /** How many of them found some open node's condition met. */
  ghost function FruitfulLooks(rule: seq<Node>, interval: nat, answers: nat -> nat, worlds: seq<World>): nat {
    if worlds == [] then 0
    else
      var n := |worlds| - 1;
      var before := Run(rule, interval, Fresh(), answers, worlds[..n]);
      FruitfulLooks(rule, interval, answers, worlds[..n]) +
        if Looking(before) && Fruitful(rule, before.opening, worlds[n]) then 1 else 0
  }

  /** How many of them found every open node's condition met. */
  ghost function FavourableLooks(rule: seq<Node>, interval: nat, answers: nat -> nat, worlds: seq<World>): nat {
    if worlds == [] then 0
    else
      var n := |worlds| - 1;
      var before := Run(rule, interval, Fresh(), answers, worlds[..n]);
      FavourableLooks(rule, interval, answers, worlds[..n]) +
        if Looking(before) && Favourable(rule, before.opening, worlds[n]) then 1 else 0
  }

  /** A flow that nothing goes wrong with, after `fruitful` looks that found something. */
  ghost predicate GettingOn(rule: seq<Node>, rt: Runtime, fruitful: nat, answers: nat -> nat) {
    && Orderly(rule, rt) && Filling(rule, rt, answers)
    && rt.opening.status != Failed
    && (!rt.initialized ==> rt == Fresh() && fruitful == 0)
    && (rt.initialized && rt.opening.status == Running ==>
          && (rule != [] ==> !AllCompleted(rt.opening.states))
          && Left(rt.opening.states) + fruitful <= |rule|)
  }

  lemma StartGetsOn(rule: seq<Node>, interval: nat, answers: nat -> nat, w: World)
    requires WellFormed(rule) && NoneRefused(answers)
    ensures GettingOn(rule, Tick(rule, interval, Fresh(), answers, w), 0, answers)
  {
    hide InOrder, NoneForgotten, AllFilledOnce, OpenRoots, GroupsOf, NoneRefused, WellFormed, Pause;
    var o := Fresh().opening;
    StartKeepsOrder(rule, o, answers);
    StartFillsOnce(rule, o, answers);
    StartsFine(rule, o, answers);
    var states := Start(rule, o, answers).states;
    assert rule != [] ==> states[0] != Completed;
    LeftBounds(states);
  }

  lemma TickGetsOn(rule: seq<Node>, interval: nat, rt: Runtime, answers: nat -> nat, w: World, fruitful: nat)
    requires WellFormed(rule) && NoneRefused(answers) && GettingOn(rule, rt, fruitful, answers) && rt.initialized
    ensures GettingOn(rule, Tick(rule, interval, rt, answers, w),
                      fruitful + if Looking(rt) && Fruitful(rule, rt.opening, w) then 1 else 0, answers)
  {
    hide InOrder, NoneForgotten, AllFilledOnce, NoneRefused, WellFormed, Fruitful, Advance, AllCompleted;
    if Looking(rt) {
      AdvanceKeepsOrder(rule, rt.opening, answers, w);
      AdvanceFillsOnce(rule, rt.opening, answers, w);
      AdvancesFine(rule, rt.opening, answers, w);
      AdvanceFinishes(rule, rt.opening, answers, w);
      AdvanceLosesNone(rule, rt.opening, answers, w);
      if rule != [] && Fruitful(rule, rt.opening, w) {
        AdvanceGetsOn(rule, rt.opening, answers, w);
      }
      EmptyIsCompleted(Advance(rule, rt.opening, answers, w).states);
    }
  }

  lemma EmptyIsCompleted(states: seq<NodeState>)
    ensures states == [] ==> AllCompleted(states)
  {
  }

  lemma {:induction false} KeepsGettingOn(rule: seq<Node>, interval: nat, answers: nat -> nat, worlds: seq<World>)
    requires WellFormed(rule) && NoneRefused(answers)
    ensures GettingOn(rule, Run(rule, interval, Fresh(), answers, worlds),
      FruitfulLooks(rule, interval, answers, worlds), answers)
    ensures worlds != [] ==> Run(rule, interval, Fresh(), answers, worlds).initialized
  {
    hide WellFormed, NoneRefused, Start, Advance, Fruitful, GettingOn;
    if worlds == [] {
      FreshGetsOn(rule, answers);
    } else {
      var n := |worlds| - 1;
      KeepsGettingOn(rule, interval, answers, worlds[..n]);
      if n == 0 {
        StartGetsOn(rule, interval, answers, worlds[0]);
      } else {
        TickGetsOn(rule, interval, Run(rule, interval, Fresh(), answers, worlds[..n]), answers, worlds[n],
                   FruitfulLooks(rule, interval, answers, worlds[..n]));
      }
    }
  }

  lemma FreshGetsOn(rule: seq<Node>, answers: nat -> nat)
    ensures GettingOn(rule, Fresh(), 0, answers)
  {
  }

  /** A well-formed flow that meets no refusal is finished once as many looks as it has nodes
      have found some open node's condition met, whatever the other looks and ticks saw. */
  lemma FinishesFruitfully(rule: seq<Node>, interval: nat, answers: nat -> nat, worlds: seq<World>)
    requires WellFormed(rule) && NoneRefused(answers)
    requires FruitfulLooks(rule, interval, answers, worlds) >= |rule|
    requires FruitfulLooks(rule, interval, answers, worlds) > 0
    ensures Run(rule, interval, Fresh(), answers, worlds).opening.status == Finished
  {
    hide WellFormed, NoneRefused, FruitfulLooks, Run, Orderly, Filling;
    KeepsGettingOn(rule, interval, answers, worlds);
    var rt := Run(rule, interval, Fresh(), answers, worlds);
    if rt.opening.status == Running {
      assert rt.initialized;
      OrderlyMatches(rule, rt);
      LeftBounds(rt.opening.states);
    }
  }

  lemma OrderlyMatches(rule: seq<Node>, rt: Runtime)
    requires Orderly(rule, rt) && rt.initialized
    ensures |rt.opening.states| == |rule| && NoneForgotten(rule, rt.opening.states, |rule|)
  {
  }

  lemma {:induction false} FavourableLooksCount(rule: seq<Node>, interval: nat, answers: nat -> nat, worlds: seq<World>)
    requires Acyclic(rule)
    ensures FavourableLooks(rule, interval, answers, worlds) <= FruitfulLooks(rule, interval, answers, worlds)
  {
    hide Acyclic, Run, Favourable, Fruitful, Orderly;
    if worlds != [] {
      var n := |worlds| - 1;
      FavourableLooksCount(rule, interval, answers, worlds[..n]);
      var before := Run(rule, interval, Fresh(), answers, worlds[..n]);
      FreshIsOrderly(rule);
      OpensInOrder(rule, interval, Fresh(), answers, worlds[..n]);
      if Looking(before) && Favourable(rule, before.opening, worlds[n]) {
        OrderlyMatches(rule, before);
        FavourableIsFruitful(rule, before.opening, worlds[n]);
      }
    }
  }

  lemma FreshIsOrderly(rule: seq<Node>)
    ensures Orderly(rule, Fresh())
  {
  }

  /** An acyclic, well-formed flow that meets no refusal is finished once as many looks as it
      has nodes, and one if it has none, have found every open wave cleared and players enough. */
  lemma Finishes(rule: seq<Node>, interval: nat, answers: nat -> nat, worlds: seq<World>)
    requires WellFormed(rule) && Acyclic(rule) && NoneRefused(answers)
    requires FavourableLooks(rule, interval, answers, worlds) >= |rule|
    requires FavourableLooks(rule, interval, answers, worlds) > 0
    ensures Run(rule, interval, Fresh(), answers, worlds).opening.status == Finished
  {
    hide *;
    FavourableLooksCount(rule, interval, answers, worlds);
    FinishesFruitfully(rule, interval, answers, worlds);
  }

  // ----- when it looks ------------------------------------------------------------------------------

  /** While a flow runs, its ticks and its looks keep exact count of each other: one opening
      tick, and `Pause` idle ticks before each look. */
  lemma {:induction false} LooksAreSpaced(rule: seq<Node>, interval: nat, answers: nat -> nat, worlds: seq<World>)
    ensures var rt := Run(rule, interval, Fresh(), answers, worlds);
      && rt.initialized == (worlds != [])
      && (worlds == [] ==> rt == Fresh())
      && (worlds != [] && rt.opening.status == Running ==>
            |worlds| + rt.wait == 1 + Pause(interval) + Looks(rule, interval, answers, worlds) * (Pause(interval) + 1))
  {
    hide Start, Advance, Pause;
    if worlds != [] {
      var n := |worlds| - 1;
      LooksAreSpaced(rule, interval, answers, worlds[..n]);
      var looks := Looks(rule, interval, answers, worlds[..n]);
      assert (looks + 1) * (Pause(interval) + 1) == looks * (Pause(interval) + 1) + (Pause(interval) + 1);
    }
  }

  lemma {:induction false} WaitsOut(rule: seq<Node>, interval: nat, rt: Runtime, answers: nat -> nat,
                                    worlds: seq<World>)
    requires Valid(rule, rt) && rt.opening.status == Running && |worlds| <= rt.wait
    ensures Run(rule, interval, rt, answers, worlds) == rt.(wait := rt.wait - |worlds|)
  {
    if worlds != [] {
      WaitsOut(rule, interval, rt, answers, worlds[..|worlds| - 1]);
    }
  }

  /** From one update of a flow to the next: max(1, interval) ticks that change nothing and
      look at nothing, and then the update. The period is never the interval. */
  lemma UpdatePeriod(rule: seq<Node>, interval: nat, rt: Runtime, pause: nat, answers: nat -> nat,
                     worlds: seq<World>, w: World)
    requires Valid(rule, rt) && rt.initialized && rt.opening.status == Running && rt.wait == pause
    requires |worlds| == pause == if interval == 0 then 1 else interval
    ensures forall i :: 0 <= i <= |worlds| ==> Run(rule, interval, rt, answers, worlds[..i]).opening == rt.opening
    ensures Run(rule, interval, rt, answers, worlds + [w]) ==
      Runtime(Advance(rule, rt.opening, answers, w), true, pause)
    ensures |worlds + [w]| > interval
  {
    hide Advance;
    forall i | 0 <= i <= |worlds| ensures Run(rule, interval, rt, answers, worlds[..i]).opening == rt.opening {
      WaitsOut(rule, interval, rt, answers, worlds[..i]);
    }
    WaitsOut(rule, interval, rt, answers, worlds);
    assert (worlds + [w])[..|worlds|] == worlds;
  }

  /** One node that waits for one player, who is always there, and an interval of one tick:
      looking every tick would finish it on the second. It finishes on the third. */
  lemma PeriodIsNotInterval(answers: nat -> nat)
    ensures var rule, w := [Node(1, PlayersAtLeast(1), [], None)], World({}, 1);
      && Run(rule, 1, Fresh(), answers, [w, w]).opening.status == Running
      && Run(rule, 1, Fresh(), answers, [w, w, w]).opening.status == Finished
  {
    var rule, w := [Node(1, PlayersAtLeast(1), [], None)], World({}, 1);
    var begun := Tick(rule, 1, Fresh(), answers, w);
    assert !HasPredecessor(rule, 0);
    assert OpenRoots(rule, Opening(Running, [Inactive], [], 0), answers, 0).states == [Inactive];
    assert GroupsOf(rule[..0]) == [];
    assert seq(1, _ => Inactive) == [Inactive];
    assert begun.opening == Opening(Running, [Active], [], 0);
    assert [w, w, w][..2] == [w, w] && [w, w][..1] == [w] && [w][..0] == [];
    assert Run(rule, 1, Fresh(), answers, [w]) == begun;
    var done := Complete(rule, begun.opening, w);
    assert done == [Completed];
    var next := begun.opening.(states := done);
    assert OpenNext(rule, next, answers, 0) == next;
    assert OpenNext(rule, next, answers, 1) == next;
  }

  /** Every look of a run finds every open node's condition met. */
  ghost predicate FavourableRun(rule: seq<Node>, interval: nat, answers: nat -> nat, worlds: seq<World>) {
    forall i :: 0 <= i < |worlds| ==>
      var before := Run(rule, interval, Fresh(), answers, worlds[..i]);
      Looking(before) ==> Favourable(rule, before.opening, worlds[i])
  }

  lemma {:induction false} AllLooksFavourable(rule: seq<Node>, interval: nat, answers: nat -> nat, worlds: seq<World>)
    requires FavourableRun(rule, interval, answers, worlds)
    ensures FavourableLooks(rule, interval, answers, worlds) == Looks(rule, interval, answers, worlds)
  {
    hide Favourable, Run;
    if worlds != [] {
      var before := worlds[..|worlds| - 1];
      assert forall i :: 0 <= i < |before| ==> before[..i] == worlds[..i];
      AllLooksFavourable(rule, interval, answers, before);
    }
  }

  /** And how soon, where no look is in vain: one opening tick, and one update a node. */
  lemma FinishesInTime(rule: seq<Node>, interval: nat, answers: nat -> nat, worlds: seq<World>)
    requires WellFormed(rule) && Acyclic(rule) && NoneRefused(answers)
    requires FavourableRun(rule, interval, answers, worlds)
    requires |worlds| >= 1 + (if rule == [] then 1 else |rule|) * (Pause(interval) + 1)
    ensures Run(rule, interval, Fresh(), answers, worlds).opening.status == Finished
  {
    hide *;
    var needed, looks := if rule == [] then 1 else |rule|, Looks(rule, interval, answers, worlds);
    LooksAreSpaced(rule, interval, answers, worlds);
    AllLooksFavourable(rule, interval, answers, worlds);
    if looks >= needed {
      Finishes(rule, interval, answers, worlds);
    } else {
      NeverFails(rule, interval, answers, worlds);
      SpacesFewer(looks, needed - 1, Pause(interval) + 1);
      assert (needed - 1) * (Pause(interval) + 1) == needed * (Pause(interval) + 1) - (Pause(interval) + 1);
    }
  }

  lemma SpacesFewer(m: nat, n: nat, space: nat)
    requires m <= n
    ensures m * space <= n * space
  {
  }

  lemma NeverFails(rule: seq<Node>, interval: nat, answers: nat -> nat, worlds: seq<World>)
    requires WellFormed(rule) && NoneRefused(answers)
    ensures Run(rule, interval, Fresh(), answers, worlds).opening.status != Failed
  {
    hide WellFormed, NoneRefused, Run, Orderly, Filling;
    KeepsGettingOn(rule, interval, answers, worlds);
  }

  // ----- a loop never finishes -------------------------------------------------------------------------

  ghost predicate Loop(rule: seq<Node>, path: seq<nat>) {
    |path| > 1 && Walk(rule, path) && path[0] == path[|path| - 1]
  }

  /** No node of the loop has opened. */
  ghost predicate Shut(rule: seq<Node>, path: seq<nat>, states: seq<NodeState>)
    requires |rule| == |states| && Walk(rule, path)
  {
    forall i :: 0 <= i < |path| ==> states[path[i]] == Inactive
  }

  lemma InLoop(rule: seq<Node>, path: seq<nat>, i: nat) returns (j: nat)
    requires Loop(rule, path) && i < |path|
    ensures j < |path| && Edge(rule, path[j], path[i])
  {
    hide Edge;
    j := if i == 0 then |path| - 2 else i - 1;
    assert Edge(rule, path[j], path[j + 1]);
  }

  lemma StartLeavesLoop(rule: seq<Node>, o: Opening, answers: nat -> nat, path: seq<nat>)
    requires Loop(rule, path)
    ensures Shut(rule, path, Start(rule, o, answers).states)
  {
    hide Edge, Loop;
    assert Walk(rule, path) by { LoopWalks(rule, path); }
    var start := o.(states := seq(|rule|, _ => Inactive), groups := GroupsOf(rule));
    RootsInOrder(rule, start, answers, |rule|);
    forall i: nat | i < |path| ensures Start(rule, o, answers).states[path[i]] == Inactive {
      var j := InLoop(rule, path, i);
      assert HasPredecessor(rule, path[i]);
    }
  }

  lemma LoopWalks(rule: seq<Node>, path: seq<nat>)
    requires Loop(rule, path)
    ensures |path| > 1 && Walk(rule, path)
  {
  }

  lemma AdvanceLeavesLoop(rule: seq<Node>, o: Opening, answers: nat -> nat, w: World, path: seq<nat>)
    requires |rule| == |o.states| && Loop(rule, path) && Shut(rule, path, o.states)
    ensures Shut(rule, path, Advance(rule, o, answers, w).states)
    ensures o.status == Running ==> Advance(rule, o, answers, w).status != Finished
  {
    hide Edge, Holds, HasPredecessor, OpenNext, Loop;
    LoopWalks(rule, path);
    var done := o.(states := Complete(rule, o, w));
    NextStates(rule, done, answers, |rule|);
    NextStatus(rule, done, answers, |rule|);
    var r := OpenNext(rule, done, answers, |rule|).states;
    forall i: nat | i < |path| ensures r[path[i]] == Inactive {
      var j := InLoop(rule, path, i);
      assert done.states[path[i]] == Inactive && done.states[path[j]] == Inactive;
    }
    var first := InLoop(rule, path, 0);
    assert r[path[first]] == Inactive;
  }

  lemma {:induction false} NextStatus(rule: seq<Node>, o: Opening, answers: nat -> nat, k: nat)
    requires k <= |rule| == |o.states|
    ensures var r := OpenNext(rule, o, answers, k).status;
      r == o.status || r == Failed
  {
    hide Opens;
    if k > 0 {
      NextStatus(rule, o, answers, k - 1);
    }
  }

  /** Acyclic is not only enough but needed: with a loop among its edges a flow never
      finishes, whatever happens. */
  lemma {:induction false} LoopNeverFinishes(rule: seq<Node>, interval: nat, answers: nat -> nat, worlds: seq<World>,
                                             path: seq<nat>)
    requires Loop(rule, path)
    ensures var r := Run(rule, interval, Fresh(), answers, worlds);
      && r.opening.status != Finished
      && (r.initialized ==> Walk(rule, path) && Shut(rule, path, r.opening.states))
  {
    hide Loop, Walk, Advance, Start, Shut;
    if worlds != [] {
      var before := Run(rule, interval, Fresh(), answers, worlds[..|worlds| - 1]);
      LoopNeverFinishes(rule, interval, answers, worlds[..|worlds| - 1], path);
      LoopWalks(rule, path);
      if !before.initialized {
        StartLeavesLoop(rule, before.opening, answers, path);
        StartStatus(rule, before.opening, answers);
      } else {
        AdvanceLeavesLoop(rule, before.opening, answers, worlds[|worlds| - 1], path);
      }
    }
  }

  lemma StartStatus(rule: seq<Node>, o: Opening, answers: nat -> nat)
    ensures Start(rule, o, answers).status == o.status || Start(rule, o, answers).status == Failed
  {
    RootsStatus(rule, o.(states := seq(|rule|, _ => Inactive), groups := GroupsOf(rule)), answers, |rule|);
  }

  lemma {:induction false} RootsStatus(rule: seq<Node>, o: Opening, answers: nat -> nat, k: nat)
    requires k <= |rule| == |o.states|
    ensures var r := OpenRoots(rule, o, answers, k).status;
      r == o.status || r == Failed
  {
    hide HasPredecessor;
    if k > 0 {
      RootsStatus(rule, o, answers, k - 1);
    }
  }
}
