/** What an update of a mission comes to: which nodes complete, which open, and when it is over,
    told of groups, lives and players alone. */
module MissionLaws {
  import opened Wrappers
  import opened MissionFlow

  /** The first group with this id was filled without a refusal, and none of it is alive. */
  ghost predicate Cleared(groups: seq<Group>, id: nat, alive: set<nat>) {
    exists g :: 0 <= g < |groups| && ClearedAt(groups, id, alive, g)
  }

  ghost predicate ClearedAt(groups: seq<Group>, id: nat, alive: set<nat>, g: int)
    requires 0 <= g < |groups|
  {
    && groups[g].id == id && (forall j :: 0 <= j < g ==> groups[j].id != id)
    && !groups[g].failed && forall m :: m in groups[g].members ==> m !in alive
  }

  /** An open node completes on an update if and only if what it waits for has come about: enough
      players, or its group cleared. */
  lemma CompletesExactly(rule: seq<Node>, o: Opening, answers: nat -> nat, w: World, k: nat)
    requires k < |rule| == |o.states| && o.states[k] == Active
    ensures var after := Advance(rule, o, answers, w).states[k];
      && (after == Completed || after == Active)
      && (after == Completed <==>
            match rule[k].condition
            case PlayersAtLeast(count) => w.players >= count
            case GroupEliminated(id) => Cleared(o.groups, id, w.alive))
  {
    HoldsIs(rule[k], o.groups, w);
    hide Holds, OpenNext, AllCompleted, Cleared;
    NextStates(rule, o.(states := Complete(rule, o, w)), answers, |rule|);
  }

  lemma HoldsIs(node: Node, groups: seq<Group>, w: World)
    ensures Holds(node, groups, w) <==>
      match node.condition
      case PlayersAtLeast(count) => w.players >= count
      case GroupEliminated(id) => Cleared(groups, id, w.alive)
  {
    if node.condition.GroupEliminated? {
      var id := node.condition.group;
      var g := FindGroup(groups, id);
      if g < |groups| && Holds(node, groups, w) {
        assert ClearedAt(groups, id, w.alive, g);
      }
      if Cleared(groups, id, w.alive) {
        var h :| 0 <= h < |groups| && ClearedAt(groups, id, w.alive, h);
        FirstWith(groups, id, h);
      }
    }
  }

  /** Some node names this one as coming after it. */
  ghost predicate ComesAfter(rule: seq<Node>, j: nat, k: nat) {
    j < |rule| && k < |rule| && rule[k].id in rule[j].next
  }

  /** A node that was shut opens on an update if and only if something leads to it and all that does
      is complete by then. */
  lemma OpensExactly(rule: seq<Node>, o: Opening, answers: nat -> nat, w: World, k: nat)
    requires k < |rule| == |o.states| && o.states[k] == Inactive
    ensures var before, after := Complete(rule, o, w), Advance(rule, o, answers, w).states;
      && (after[k] == Active || after[k] == Inactive)
      && (after[k] == Active <==>
            && (exists j: nat :: ComesAfter(rule, j, k))
            && forall j: nat :: ComesAfter(rule, j, k) ==> after[j] == Completed)
  {
    hide Holds, OpenNext, AllCompleted;
    var done := o.(states := Complete(rule, o, w));
    NextStates(rule, done, answers, |rule|);
    forall j: nat ensures ComesAfter(rule, j, k) <==> Edge(rule, j, k) {
    }
    hide Edge;
  }

  /** The first update opens exactly the nodes nothing leads to. */
  lemma RootsOpenFirst(rule: seq<Node>, o: Opening, answers: nat -> nat, k: nat)
    requires k < |rule|
    ensures Start(rule, o, answers).states[k] == if exists j: nat :: ComesAfter(rule, j, k) then Inactive else Active
  {
    RootsInOrder(rule, o.(states := seq(|rule|, _ => Inactive), groups := GroupsOf(rule)), answers, |rule|);
    forall j: nat ensures ComesAfter(rule, j, k) <==> Edge(rule, j, k) {
    }
  }

  /** It is finished once nothing has gone wrong and every node is complete, and not before. */
  lemma FinishedExactly(rule: seq<Node>, o: Opening, answers: nat -> nat, w: World)
    requires |rule| == |o.states| && o.status == Running
    ensures var r := Advance(rule, o, answers, w);
      r.status == Finished <==> r.status != Failed && forall k :: 0 <= k < |rule| ==> r.states[k] == Completed
  {
    var next := OpenNext(rule, o.(states := Complete(rule, o, w)), answers, |rule|);
    StatusMoves(rule, o.(states := Complete(rule, o, w)), answers, |rule|);
    hide OpenNext, Complete;
  }

  lemma {:induction false} StatusMoves(rule: seq<Node>, o: Opening, answers: nat -> nat, k: nat)
    requires k <= |rule| == |o.states| && o.status == Running
    ensures OpenNext(rule, o, answers, k).status == Running || OpenNext(rule, o, answers, k).status == Failed
  {
    hide Opens;
    if k > 0 {
      StatusMoves(rule, o, answers, k - 1);
    }
  }

  /** Over any run: a node that waits on its own wave completes only once every unit the kernel gave it
      is dead, and it was given them all. */
  lemma WaveOutlived(rule: seq<Node>, interval: nat, answers: nat -> nat, worlds: seq<World>, w: World, k: nat)
    requires WellFormed(rule) && k < |rule| && rule[k].spawn.Some?
    requires var rt := Run(rule, interval, Fresh(), answers, worlds);
      rt.initialized && rt.opening.states[k] == Active && rt.opening.status == Running
    requires Completed
      == Tick(rule, interval, Run(rule, interval, Fresh(), answers, worlds), answers, w).opening.states[k]
    ensures exists first: nat :: DeadWave(answers, first, rule[k].spawn.value.count, w.alive)
  {
    SpawnsOnce(rule, interval, Fresh(), answers, worlds);
    var rt := Run(rule, interval, Fresh(), answers, worlds);
    var o := rt.opening;
    assert FilledOnce(rule[k], o.states[k], o, answers) && WellFormedNode(rule[k]);
    hide Run, WellFormed, AllFilledOnce, Advance;
    CompletesExactly(rule, o, answers, w, k);
    var id := rule[k].spawn.value.group;
    var g :| 0 <= g < |o.groups| && ClearedAt(o.groups, id, w.alive, g);
    FirstWith(o.groups, id, g);
    var first: nat :| Answered(o.groups[g].members, answers, first);
    forall i | 0 <= i < rule[k].spawn.value.count ensures DeadAt(answers, first, i, w.alive) {
      assert o.groups[g].members[i] in o.groups[g].members;
    }
    assert DeadWave(answers, first, rule[k].spawn.value.count, w.alive);
  }

  /** As many creates in a row as the wave is to have, each answered, and none of them alive. */
  ghost predicate DeadWave(answers: nat -> nat, first: nat, count: nat, alive: set<nat>) {
    forall i :: 0 <= i < count ==> DeadAt(answers, first, i, alive)
  }

  predicate DeadAt(answers: nat -> nat, first: nat, i: nat, alive: set<nat>) {
    answers(first + i) != 0 && answers(first + i) !in alive
  }
}
