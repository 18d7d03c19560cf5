/** The kernel as the directors see it: creating an agent gives a fresh net id or is
    refused, and an agent that is gone stays gone. Beside it, one tick's agent budget. */
module AgentKernel {

  /** Who is alive, and the template of every net id ever handed out. */
  datatype World = World(alive: set<nat>, templates: map<nat, nat>)

  /** Units die and new ones appear; nobody comes back, and no net id is handed out twice. */
  ghost predicate Later(w: World, v: World) {
    && v.alive <= v.templates.Keys
    && (forall id :: id in w.templates ==> id in v.templates && v.templates[id] == w.templates[id])
    && (forall id :: id in v.alive && id in w.templates ==> id in w.alive)
  }

  lemma LaterStill(u: World, v: World, w: World)
    requires Later(u, v) && Later(v, w)
    ensures Later(u, w)
  {
  }

  lemma CreatedLater(w: World, v: World, id: nat, template: nat)
    requires w.alive <= w.templates.Keys
    requires if id == 0 then v == w
             else id !in w.templates && v == World(w.alive + {id}, w.templates[id := template])
    ensures Later(w, v)
  {
  }

  /** What the kernel was asked to create, and its answer: a net id, or 0 for a refusal. */
  datatype Request = Request(template: nat, id: nat)

  /** After what had been asked for, exactly these, in this order. */
  ghost predicate AskedFor(before: seq<Request>, after: seq<Request>, templates: seq<nat>) {
    && |after| == |before| + |templates| && after[..|before|] == before
    && forall k :: 0 <= k < |templates| ==> after[|before| + k].template == templates[k]
  }

  lemma AskedNothing(requests: seq<Request>)
    ensures AskedFor(requests, requests, [])
  {
  }

  lemma AskedOne(before: seq<Request>, after: seq<Request>, templates: seq<nat>, r: Request)
    requires AskedFor(before, after, templates)
    ensures AskedFor(before, after + [r], templates + [r.template])
  {
  }

  /** How many of those asked for since were given. */
  function Granted(requests: seq<Request>): nat {
    if requests == [] then 0
    else Granted(requests[..|requests| - 1]) + if requests[|requests| - 1].id != 0 then 1 else 0
  }

  /** An entity as the kernel's query reports it; what is gone is never valid. */
  datatype Seen = Seen(netId: nat, template: nat, valid: bool)

  ghost predicate Reported(w: World, seen: seq<Seen>) {
    forall s :: s in seen ==>
      s.netId in w.templates && w.templates[s.netId] == s.template && (s.valid <==> s.netId in w.alive)
  }

  /** Nobody alive is left out; what is gone may still be listed. */
  ghost predicate Complete(w: World, seen: seq<Seen>) {
    forall id :: id in w.alive ==> Lists(seen, id)
  }

  ghost predicate Lists(seen: seq<Seen>, id: nat) {
    exists k :: 0 <= k < |seen| && seen[k].netId == id && seen[k].valid
  }

  class Kernel {
    var alive: set<nat>
    /** Those of the living that are agents. */
    var agents: set<nat>
    var templates: map<nat, nat>
    var next: nat
    ghost var requests: seq<Request>

    ghost predicate Valid()
      reads this
    {
      agents <= alive <= templates.Keys && 0 < next && forall id :: id in templates ==> 0 < id < next
    }

    ghost function Now(): World
      reads this
    {
      World(alive, templates)
    }

    constructor ()
      ensures Valid() && alive == {} && templates == map[] && requests == []
    {
      alive, agents, templates, next, requests := {}, {}, map[], 1, [];
    }

    /** A fresh agent, or 0 and nothing changed. */
    method Create(template: nat) returns (id: nat)
      requires Valid()
      modifies this
      ensures Valid() && requests == old(requests) + [Request(template, id)]
      ensures id == 0 ==> alive == old(alive) && agents == old(agents) && templates == old(templates)
      ensures id != 0 ==>
        && id !in old(templates)
        && alive == old(alive) + {id} && agents == old(agents) + {id} && templates == old(templates)[id := template]
    {
      var refused: bool := *;
      if refused {
        requests := requests + [Request(template, 0)];
        return 0;
      }
      id := next;
      requests := requests + [Request(template, id)];
      alive, agents, templates, next := alive + {id}, agents + {id}, templates[id := template], next + 1;
    }

    /** A fresh entity, an agent or not, or 0 and nothing changed. */
    method CreateEntity(template: nat) returns (id: nat)
      requires Valid()
      modifies this
      ensures Valid() && requests == old(requests) + [Request(template, id)]
      ensures id == 0 ==> alive == old(alive) && agents == old(agents) && templates == old(templates)
      ensures id != 0 ==>
        && id !in old(templates)
        && alive == old(alive) + {id} && templates == old(templates)[id := template]
        && (agents == old(agents) || agents == old(agents) + {id})
    {
      var agent: bool := *;
      if agent {
        id := Create(template);
        return;
      }
      id := next;
      requests := requests + [Request(template, id)];
      alive, templates, next := alive + {id}, templates[id := template], next + 1;
    }

    /** Every living entity, in any order, and any that are gone. */
    method Query() returns (seen: seq<Seen>)
      requires Valid()
      ensures Reported(Now(), seen) && Complete(Now(), seen)
    {
      seen := [];
      var rest := templates.Keys;
      while rest != {}
        invariant rest <= templates.Keys && Reported(Now(), seen)
        invariant forall id :: id in alive && id !in rest ==> Lists(seen, id)
        decreases |rest|
      {
        var id :| id in rest;
        var listed: bool := *;
        ghost var before := seen;
        if id in alive {
          seen := seen + [Seen(id, templates[id], true)];
          assert seen[|before|].netId == id;
        } else if listed {
          seen := seen + [Seen(id, templates[id], false)];
        }
        StillListed(before, seen);
        rest := rest - {id};
      }
    }

    /** What the rest of the server does between two ticks of the directors. */
    method Elapse(dead: set<nat>, born: seq<nat>, props: seq<nat>)
      requires Valid()
      modifies this
      ensures Valid() && Later(old(Now()), Now())
    {
      alive, agents := alive - dead, agents - dead;
      for k := 0 to |born|
        invariant Valid() && Later(old(Now()), Now())
      {
        var id := Create(born[k]);
      }
      for k := 0 to |props|
        invariant Valid() && Later(old(Now()), Now())
      {
        alive, templates, next := alive + {next}, templates[next := props[k]], next + 1;
      }
    }
  }

  lemma StillListed(s: seq<Seen>, t: seq<Seen>)
    requires s <= t
    ensures forall id :: Lists(s, id) ==> Lists(t, id)
  {
    forall id | Lists(s, id) ensures Lists(t, id) {
      var k :| 0 <= k < |s| && s[k].netId == id && s[k].valid;
      assert t[k] == s[k];
    }
  }

  const UNBOUNDED: nat := 0xFFFF_FFFF

  /** What a ceiling leaves; 0 is no ceiling. */
  function RoomUnder(ceiling: nat, live: nat): nat {
    if ceiling == 0 then UNBOUNDED else if live >= ceiling then 0 else ceiling - live
  }

  function Least(a: nat, b: nat): nat {
    if a <= b then a else b
  }

  /** A `ceiling` of 0 is unbounded. */
  class AgentBudget {
    const ceiling: nat
    var live: nat

    constructor (ceiling: nat, live: nat)
      ensures this.ceiling == ceiling && this.live == live
    {
      this.ceiling, this.live := ceiling, live;
    }

    function Room(): (room: nat)
      reads this
      ensures ceiling != 0 ==> live + room == if live >= ceiling then live else ceiling
      ensures ceiling == 0 ==> room == UNBOUNDED
    {
      RoomUnder(ceiling, live)
    }

    method Spend(agents: nat)
      modifies this
      ensures live == old(live) + agents
    {
      live := live + agents;
    }
  }

  /** The ceiling is soft only in what was over it already: filling stops at it. */
  predicate Within(ceiling: nat, before: nat, after: nat) {
    ceiling != 0 ==> after <= if before >= ceiling then before else ceiling
  }
}
