/** The game-rule director's own form: a runtime whose fields each update changes in place,
    against a kernel that answers create requests. */
module MissionDirector {
  import opened MissionFlow
  import opened Wrappers

  /** The kernel as the one thing a mission asks of it: an answer to each create request. */
  class AnsweringKernel {
    const answers: nat -> nat
    var asked: nat

    constructor (answers: nat -> nat)
      ensures this.answers == answers && asked == 0
    {
      this.answers := answers;
      asked := 0;
    }

    /** A net id, or 0 where the kernel refuses. */
    method Create() returns (id: nat)
      modifies this
      ensures id == answers(old(asked)) && asked == old(asked) + 1
    {
      id := answers(asked);
      asked := asked + 1;
    }
  }

  /** Group `g` with more members. */
  ghost function Grown(groups: seq<Group>, g: nat, made: seq<nat>, failed: bool): (r: seq<Group>)
    requires g < |groups|
    ensures |r| == |groups|
  {
    groups[g := Group(groups[g].id, groups[g].members + made, failed)]
  }

  ghost function Behind(made: seq<nat>, rest: Filled): Filled {
    rest.(members := made + rest.members)
  }

  lemma GrownByNothing(groups: seq<Group>, g: nat, f: Filled)
    requires g < |groups|
    ensures Grown(groups, g, [], groups[g].failed) == groups && Behind([], f) == f
  {
    assert groups[g].members + [] == groups[g].members && groups[g := groups[g]] == groups;
    assert [] + f.members == f.members;
  }

  lemma GrownMore(groups: seq<Group>, g: nat, made: seq<nat>, failed: bool, id: nat)
    requires g < |groups|
    ensures var now := Grown(groups, g, made, failed);
      && now[g := now[g].(members := now[g].members + [id])] == Grown(groups, g, made + [id], failed)
      && now[g := now[g].(failed := true)] == Grown(groups, g, made, true)
  {
    assert (groups[g].members + made) + [id] == groups[g].members + (made + [id]);
  }

  lemma FillStep(answers: nat -> nat, asked: nat, count: nat, made: seq<nat>)
    requires count > 0
    ensures var all := Behind(made, Fill(answers, asked, count));
      if answers(asked) == 0 then all == Filled(made, asked + 1, false)
      else all == Behind(made + [answers(asked)], Fill(answers, asked + 1, count - 1))
  {
    assert made + [] == made;
    var rest := Fill(answers, asked + 1, count - 1);
    assert made + ([answers(asked)] + rest.members) == (made + [answers(asked)]) + rest.members;
  }

  lemma FilledUp(answers: nat -> nat, asked: nat, made: seq<nat>)
    ensures Behind(made, Fill(answers, asked, 0)) == Filled(made, asked, true)
  {
    assert made + [] == made;
  }

  class RuleRuntime {
    const rule: seq<Node>
    const interval: nat
    var initialized: bool
    var status: Status
    var wait: nat
    var states: seq<NodeState>
    var groups: seq<Group>

    constructor (rule: seq<Node>, interval: nat, kernel: AnsweringKernel)
      requires kernel.asked == 0
      ensures this.rule == rule && this.interval == interval && Snapshot(kernel) == Fresh()
    {
      this.rule, this.interval := rule, interval;
      initialized, status, wait, states, groups := false, Running, 0, [], [];
    }

    ghost function Current(kernel: AnsweringKernel): Opening
      reads this, kernel
    {
      Opening(status, states, groups, kernel.asked)
    }

    ghost function Snapshot(kernel: AnsweringKernel): Runtime
      reads this, kernel
    {
      Runtime(Current(kernel), initialized, wait)
    }

    /** Creates the members of group `g` one by one, up to the first refusal. */
    method FillMembers(kernel: AnsweringKernel, g: nat, count: nat)
      requires g < |groups|
      modifies this`groups, this`status, kernel
      ensures var f := Fill(kernel.answers, old(kernel.asked), count);
        && kernel.asked == f.asked
        && groups == old(Grown(groups, g, f.members, groups[g].failed || !f.complete))
        && status == if f.complete then old(status) else Failed
    {
      hide *;
      ghost var before, made: seq<nat> := groups, [];
      ghost var all := Fill(kernel.answers, kernel.asked, count);
      GrownByNothing(groups, g, all);
      for index := 0 to count
        invariant groups == Grown(before, g, made, before[g].failed) && status == old(status)
        invariant all == Behind(made, Fill(kernel.answers, kernel.asked, count - index))
      {
        FillStep(kernel.answers, kernel.asked, count - index, made);
        var id := kernel.Create();
        GrownMore(before, g, made, before[g].failed, id);
        if id == 0 {
          groups, status := groups[g := groups[g].(failed := true)], Failed;
          return;
        }
        groups := groups[g := groups[g].(members := groups[g].members + [id])];
        made := made + [id];
      }
      FilledUp(kernel.answers, kernel.asked, made);
    }

    method ActivateNode(kernel: AnsweringKernel, k: nat)
      requires k < |states| == |rule|
      modifies this`groups, this`status, this`states, kernel
      ensures Current(kernel) == Activate(rule[k], old(Current(kernel)), kernel.answers, k)
    {
      var node := rule[k];
      states := states[k := Active];
      if node.spawn.None? {
        if !node.condition.PlayersAtLeast? {
          status := Failed;
        }
        return;
      }
      var g := FindGroup(groups, node.spawn.value.group);
      if g == |groups| {
        status := Failed;
        return;
      }
      FillMembers(kernel, g, node.spawn.value.count);
    }

    method PointedAt(k: nat) returns (found: bool)
      requires k < |rule|
      ensures found <==> HasPredecessor(rule, k)
    {
      for j := 0 to |rule|
        invariant !exists i: nat | i < j :: Edge(rule, i, k)
      {
        if rule[k].id in rule[j].next {
          assert Edge(rule, j, k);
          return true;
        }
      }
      return false;
    }

    method MayOpen(k: nat) returns (opens: bool)
      requires k < |rule| == |states|
      ensures opens <==> HasPredecessor(rule, k) && PredecessorsDone(rule, states, k)
    {
      var hasPredecessor, allCompleted := false, true;
      for source := 0 to |rule|
        invariant hasPredecessor <==> exists j: nat | j < source :: Edge(rule, j, k)
        invariant allCompleted <==> forall j: nat | j < source :: Edge(rule, j, k) ==> states[j] == Completed
      {
        if rule[k].id in rule[source].next {
          assert Edge(rule, source, k);
          hasPredecessor := true;
          if states[source] != Completed {
            allCompleted := false;
          }
        }
      }
      return hasPredecessor && allCompleted;
    }

    method OpenAll(kernel: AnsweringKernel)
      modifies this`groups, this`status, this`states, kernel
      ensures Current(kernel) == Start(rule, old(Current(kernel)), kernel.answers)
    {
      hide Activate, HasPredecessor;
      states := seq(|rule|, _ => Inactive);
      groups := GroupsOf(rule);
      ghost var start := Current(kernel);
      for offset := 0 to |rule|
        invariant |states| == |rule| && Current(kernel) == OpenRoots(rule, start, kernel.answers, offset)
      {
        var found := PointedAt(offset);
        if !found {
          ActivateFrame(rule[offset], Current(kernel), kernel.answers, offset);
          ActivateNode(kernel, offset);
        }
      }
    }

    method CompleteActive(ghost o: Opening, w: World)
      requires |states| == |rule| && o.states == states && o.groups == groups
      modifies this`states
      ensures states == Complete(rule, o, w)
    {
      hide Holds;
      for offset := 0 to |rule|
        invariant |states| == |rule|
        invariant states[..offset] == Complete(rule, o, w)[..offset] && states[offset..] == o.states[offset..]
      {
        assert states[offset] == o.states[offset];
        if states[offset] == Active && Holds(rule[offset], groups, w) {
          states := states[offset := Completed];
        }
      }
    }

    method AdvanceAll(kernel: AnsweringKernel, w: World)
      requires |states| == |rule|
      modifies this`groups, this`status, this`states, kernel
      ensures Current(kernel) == Advance(rule, old(Current(kernel)), kernel.answers, w)
    {
      hide Activate, HasPredecessor, PredecessorsDone, Complete;
      CompleteActive(Current(kernel), w);
      ghost var done := Current(kernel);
      for offset := 0 to |rule|
        invariant |states| == |rule| && Current(kernel) == OpenNext(rule, done, kernel.answers, offset)
      {
        if states[offset] == Inactive {
          var opens := MayOpen(offset);
          if opens {
            ActivateFrame(rule[offset], Current(kernel), kernel.answers, offset);
            ActivateNode(kernel, offset);
          }
        }
      }
      if status == Running && AllCompleted(states) {
        status := Finished;
      }
    }

    method Tick(kernel: AnsweringKernel, w: World)
      requires MissionFlow.Valid(rule, Snapshot(kernel))
      modifies this, kernel
      ensures Snapshot(kernel) == MissionFlow.Tick(rule, interval, old(Snapshot(kernel)), kernel.answers, w)
    {
      hide Start, Advance;
      if status != Running {
        return;
      }
      if wait > 0 {
        wait := wait - 1;
        return;
      }
      wait := Pause(interval);
      if !initialized {
        OpenAll(kernel);
        initialized := true;
        return;
      }
      AdvanceAll(kernel, w);
    }
  }
}
