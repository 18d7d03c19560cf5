/** Respawns: a death costs one of the team's revives, if any is left, and the player returns
    once the configured delay is over. */
module Respawn {
  import opened Sorting

  datatype Due = Due(id: nat, at: real)

  // ----- a tick's deaths, each player once, lowest id first --------------------------------

  ghost predicate Ascending(s: seq<nat>) {
    forall i, j :: 0 <= i < j < |s| ==> s[i] < s[j]
  }

  /** Neighbours that are equal, kept once. */
  function Unique(s: seq<nat>): (r: seq<nat>)
    ensures |r| <= |s| && forall x :: x in r <==> x in s
    ensures s != [] ==> r != [] && r[|r| - 1] == s[|s| - 1]
  {
    if s == [] then []
    else
      var last := |s| - 1;
      assert s == s[..last] + [s[last]];
      var before := Unique(s[..last]);
      if before != [] && before[|before| - 1] == s[last] then before else before + [s[last]]
  }

  function Settled(died: seq<nat>): (r: seq<nat>)
    ensures forall x :: x in r <==> x in died
  {
    var sorted := StableSort((a: nat, b: nat) => a < b, died);
    assert forall x :: x in sorted <==> x in multiset(sorted);
    Unique(sorted)
  }

  lemma {:induction false} UniqueAscends(s: seq<nat>)
    requires forall i, j :: 0 <= i < j < |s| ==> s[i] <= s[j]
    ensures Ascending(Unique(s))
  {
    if s != [] {
      var last := |s| - 1;
      UniqueAscends(s[..last]);
      var before := Unique(s[..last]);
      if before != [] {
        assert before[|before| - 1] == s[last - 1];
      }
    }
  }

  lemma SettledAscends(died: seq<nat>)
    ensures Ascending(Settled(died))
  {
    var less, tie := (a: nat, b: nat) => a < b, (a: nat, b: nat) => true;
    SortOrders(less, tie, died);
    var sorted := StableSort(less, died);
    forall i, j | 0 <= i < j < |sorted| ensures sorted[i] <= sorted[j] {
      assert Before(less, tie, sorted[i], sorted[j]);
    }
    UniqueAscends(sorted);
  }

  lemma {:induction false} AscendingIsUnique(s: seq<nat>, t: seq<nat>)
    requires Ascending(s) && Ascending(t) && forall x :: x in s <==> x in t
    ensures s == t
  {
    if s != [] && t != [] {
      var i, j := |s| - 1, |t| - 1;
      assert s[i] in t && t[j] in s;
      assert s[i] == t[j];
      assert s == s[..i] + [s[i]] && t == t[..j] + [t[j]];
      forall x ensures x in s[..i] <==> x in t[..j] {
        assert x in s[..i] <==> x in s && x != s[i];
        assert x in t[..j] <==> x in t && x != t[j];
      }
      AscendingIsUnique(s[..i], t[..j]);
    } else if s == [] {
      NoElements(t);
    } else {
      NoElements(s);
    }
  }

  lemma NoElements(s: seq<nat>)
    requires forall x :: x !in s
    ensures s == []
  {
    assert forall x :: x in multiset(s) <==> x in s;
    assert |s| == |multiset(s)|;
  }

  /** The order deaths arrive in, and how often each is reported, makes no difference. */
  lemma ArrivalOrderIsNothing(a: seq<nat>, b: seq<nat>)
    requires forall x :: x in a <==> x in b
    ensures Settled(a) == Settled(b)
  {
    SettledAscends(a);
    SettledAscends(b);
    AscendingIsUnique(Settled(a), Settled(b));
  }

  // ----- the pool --------------------------------------------------------------------------------

  /** A negative pool is unlimited. */
  function Granted(remaining: int, settled: seq<nat>): (g: seq<nat>)
    ensures g <= settled
  {
    if remaining < 0 || remaining >= |settled| then settled else settled[..remaining]
  }

  function PoolAfter(remaining: int, deaths: nat): int {
    if remaining < 0 then remaining else if remaining >= deaths then remaining - deaths else 0
  }

  /** When there are not revives for all, the lowest ids have them. */
  lemma LowestIdsWin(remaining: int, died: seq<nat>, winner: nat, loser: nat)
    requires winner in Granted(remaining, Settled(died)) && loser in died && loser !in Granted(remaining, Settled(died))
    ensures winner < loser && |Granted(remaining, Settled(died))| == remaining
  {
    SettledAscends(died);
    var settled, granted := Settled(died), Granted(remaining, Settled(died));
    var i :| 0 <= i < |granted| && granted[i] == winner;
    assert loser in settled;
    var j :| 0 <= j < |settled| && settled[j] == loser;
    assert settled[i] == winner;
    assert forall k :: 0 <= k < |granted| ==> settled[k] in granted;
  }

  /** An unlimited pool stays as it is and everyone has a revive. A finite one gives one each, to everyone or until
      none is left. */
  lemma RevivesSpent(remaining: int, died: seq<nat>)
    ensures var settled := Settled(died); var granted := Granted(remaining, settled);
      && granted == settled[..|granted|]
      && (remaining < 0 ==> granted == settled && PoolAfter(remaining, |settled|) == remaining)
      && (remaining >= 0 ==>
            && PoolAfter(remaining, |settled|) == remaining - |granted| >= 0
            && (|granted| == |settled| || |granted| == remaining))
  {
    hide Settled;
  }

  // ----- who is waiting, by id ------------------------------------------------------------------------

  ghost predicate InOrder(due: seq<Due>) {
    forall i, j :: 0 <= i < j < |due| ==> due[i].id < due[j].id
  }

  predicate Waiting(due: seq<Due>, id: nat) {
    exists i :: 0 <= i < |due| && due[i].id == id
  }

  function Put(due: seq<Due>, id: nat, at: real): (r: seq<Due>)
    ensures r != [] && r[|r| - 1].id >= id && (due != [] ==> r[|r| - 1].id >= due[|due| - 1].id)
    ensures r[|r| - 1].id == if due != [] && due[|due| - 1].id > id then due[|due| - 1].id else id
  {
    if due == [] then [Due(id, at)]
    else
      var last := due[|due| - 1];
      if last.id < id then due + [Due(id, at)]
      else if last.id == id then due[..|due| - 1] + [Due(id, at)]
      else Put(due[..|due| - 1], id, at) + [last]
  }

  lemma Split(due: seq<Due>)
    requires InOrder(due) && due != []
    ensures var n := |due| - 1;
      && due == due[..n] + [due[n]] && InOrder(due[..n])
      && (forall d :: d in due[..n] ==> d.id < due[n].id) && (forall d :: d in due <==> d in due[..n] || d == due[n])
      && (forall id: nat :: Waiting(due, id) <==> Waiting(due[..n], id) || due[n].id == id)
      && (forall id: nat :: Waiting(due[..n], id) ==> id < due[n].id)
  {
    var n := |due| - 1;
    forall id: nat ensures Waiting(due, id) <==> Waiting(due[..n], id) || due[n].id == id {
      if i :| 0 <= i < |due| && due[i].id == id && i < n {
        assert due[..n][i].id == id;
      }
      if i :| 0 <= i < n && due[..n][i].id == id {
        assert due[i].id == id;
      }
    }
    forall d | d in due ensures d in due[..n] || d == due[n] {
      var i :| 0 <= i < |due| && due[i] == d;
      assert i < n ==> due[..n][i] == d;
    }
  }

  lemma Append(front: seq<Due>, d: Due)
    requires InOrder(front) && forall e :: e in front ==> e.id < d.id
    ensures InOrder(front + [d]) && forall e :: e in front + [d] <==> e in front || e == d
  {
  }

  lemma {:induction false} PutFacts(due: seq<Due>, id: nat, at: real)
    requires InOrder(due)
    ensures var r := Put(due, id, at);
      && InOrder(r)
      && (forall d :: d in r <==> d == Due(id, at) || (d in due && d.id != id))
      && |r| == |due| + if Waiting(due, id) then 0 else 1
  {
    if due != [] {
      Split(due);
      var n := |due| - 1;
      var front, last := due[..n], due[n];
      hide InOrder, Waiting;
      if last.id < id {
        Append(due, Due(id, at));
      } else if last.id == id {
        Append(front, Due(id, at));
      } else {
        PutFacts(front, id, at);
        Append(Put(front, id, at), last);
      }
    }
  }

  function PutAll(due: seq<Due>, ids: seq<nat>, at: real): seq<Due> {
    if ids == [] then due else Put(PutAll(due, ids[..|ids| - 1], at), ids[|ids| - 1], at)
  }

  /** How many of these players were waiting already. */
  function Again(due: seq<Due>, ids: seq<nat>): nat {
    if ids == [] then 0 else Again(due, ids[..|ids| - 1]) + if Waiting(due, ids[|ids| - 1]) then 1 else 0
  }

  lemma {:induction false} PutAllFacts(due: seq<Due>, ids: seq<nat>, at: real)
    requires InOrder(due) && Ascending(ids)
    ensures var r := PutAll(due, ids, at);
      && InOrder(r)
      && (forall d :: d in r <==> (d.id in ids && d.at == at) || (d in due && d.id !in ids))
      && |r| == |due| + |ids| - Again(due, ids)
  {
    if ids != [] {
      var n := |ids| - 1;
      assert ids == ids[..n] + [ids[n]];
      PutAllFacts(due, ids[..n], at);
      var before := PutAll(due, ids[..n], at);
      PutFacts(before, ids[n], at);
      assert Waiting(before, ids[n]) <==> Waiting(due, ids[n]) by { SameWait(before, due, ids[..n], ids[n], at); }
    }
  }

  lemma SameWait(r: seq<Due>, due: seq<Due>, ids: seq<nat>, id: nat, at: real)
    requires forall d :: d in r <==> (d.id in ids && d.at == at) || (d in due && d.id !in ids)
    requires id !in ids
    ensures Waiting(r, id) <==> Waiting(due, id)
  {
    if i :| 0 <= i < |r| && r[i].id == id {
      assert r[i] in due;
    }
    if i :| 0 <= i < |due| && due[i].id == id {
      assert due[i] in r;
    }
  }

  lemma {:induction false} AgainZero(due: seq<Due>, ids: seq<nat>)
    ensures Again(due, ids) == 0 <==> forall id :: id in ids ==> !Waiting(due, id)
  {
    if ids != [] {
      assert ids == ids[..|ids| - 1] + [ids[|ids| - 1]];
      AgainZero(due, ids[..|ids| - 1]);
    }
  }

  lemma SettledOne(id: nat)
    ensures Settled([id]) == [id]
  {
    SettledAscends([id]);
    AscendingIsUnique(Settled([id]), [id]);
  }

  /** How a pool loses balance: someone already waiting dies again, and a second revive is
      taken though no more are waiting than before. */
  lemma SecondDeathCostsTwo(due: seq<Due>, id: nat, remaining: nat, at: real)
    requires InOrder(due) && Waiting(due, id) && remaining > 0
    ensures var settled := Settled([id]);
      && PoolAfter(remaining, |settled|) == remaining - 1
      && |PutAll(due, Granted(remaining, settled), at)| == |due|
  {
    hide InOrder, Waiting, Settled, PutAll;
    SettledOne(id);
    AscendingOne(id);
    PutAllFacts(due, [id], at);
    AgainOne(due, id);
  }

  lemma AscendingOne(id: nat)
    ensures Ascending([id])
  {
  }

  lemma AgainOne(due: seq<Due>, id: nat)
    requires Waiting(due, id)
    ensures Again(due, [id]) == 1
  {
    hide Waiting;
    assert [id][..0] == [];
  }

  /** Two revives, and one player who dies, waits and dies again: both are gone and one
      place is waiting. */
  lemma TwoForOne()
    ensures Waiting([Due(1, 5.0)], 1)
    ensures PutAll([], Granted(2, Settled([1])), 5.0) == [Due(1, 5.0)] && PoolAfter(2, |Settled([1])|) == 1
    ensures PutAll([Due(1, 5.0)], Granted(1, Settled([1])), 6.0) == [Due(1, 6.0)] && PoolAfter(1, |Settled([1])|) == 0
  {
    SettledOne(1);
    hide Settled;
    assert [Due(1, 5.0)][0].id == 1;
    assert PutAll([], [], 5.0) == [] && [1][..0] == [];
    assert PutAll([Due(1, 5.0)], [], 6.0) == [Due(1, 5.0)];
  }

  // ----- who comes back ------------------------------------------------------------------------------------

  function Ready(due: seq<Due>, now: real): (r: seq<nat>) {
    if due == [] then []
    else Ready(due[..|due| - 1], now) + if due[|due| - 1].at <= now then [due[|due| - 1].id] else []
  }

  function Pending(due: seq<Due>, now: real): (r: seq<Due>) {
    if due == [] then []
    else Pending(due[..|due| - 1], now) + if due[|due| - 1].at <= now then [] else [due[|due| - 1]]
  }

  lemma {:induction false} ReadyFacts(due: seq<Due>, now: real)
    requires InOrder(due)
    ensures |Ready(due, now)| + |Pending(due, now)| == |due|
    ensures Ascending(Ready(due, now)) && InOrder(Pending(due, now))
    ensures forall id :: id in Ready(due, now) <==> exists d :: d in due && d.id == id && d.at <= now
    ensures forall d :: d in Pending(due, now) <==> d in due && d.at > now
  {
    if due != [] {
      var n := |due| - 1;
      Split(due);
      hide InOrder, Waiting;
      ReadyFacts(due[..n], now);
      var ready := Ready(due[..n], now);
      forall i | 0 <= i < |ready| ensures ready[i] < due[n].id {
        assert ready[i] in ready;
        var d :| d in due[..n] && d.id == ready[i] && d.at <= now;
      }
      if due[n].at > now {
        Append(Pending(due[..n], now), due[n]);
      }
    }
  }

  function Without(due: seq<Due>, id: nat): (r: seq<Due>) {
    if due == [] then []
    else Without(due[..|due| - 1], id) + if due[|due| - 1].id == id then [] else [due[|due| - 1]]
  }

  lemma {:induction false} WithoutFacts(due: seq<Due>, id: nat)
    requires InOrder(due)
    ensures InOrder(Without(due, id)) && |due| == |Without(due, id)| + if Waiting(due, id) then 1 else 0
    ensures forall d :: d in Without(due, id) <==> d in due && d.id != id
  {
    if due != [] {
      var n := |due| - 1;
      Split(due);
      hide InOrder, Waiting;
      WithoutFacts(due[..n], id);
      if due[n].id != id {
        Append(Without(due[..n], id), due[n]);
      }
    }
  }

  function Others(ids: seq<nat>, id: nat): (r: seq<nat>)
    ensures id !in r && forall other :: other != id ==> (other in r <==> other in ids)
  {
    if ids == [] then []
    else
      assert ids == [ids[0]] + ids[1..];
      (if ids[0] == id then [] else [ids[0]]) + Others(ids[1..], id)
  }

  // ----- the scheduler ------------------------------------------------------------------------------------------

  class RespawnScheduler {
    const reviveTimes: int
    const delay: real
    var remaining: int
    var deaths: nat
    var now: real
    var died: seq<nat>
    var due: seq<Due>
    /** How many revives have been handed back, and how many lost by leaving. */
    ghost var returned: nat
    ghost var forfeited: nat

    constructor (reviveTimes: int, delay: real)
      ensures this.reviveTimes == reviveTimes && this.delay == delay && Valid() && Balanced()
      ensures remaining == reviveTimes && now == 0.0 && died == [] && due == []
      ensures deaths == 0 && returned == 0 && forfeited == 0
    {
      this.reviveTimes, this.delay, remaining := reviveTimes, delay, reviveTimes;
      deaths, now, died, due, returned, forfeited := 0, 0.0, [], [], 0, 0;
    }

    ghost predicate Valid()
      reads this
    {
      InOrder(due) && forall d :: d in due ==> d.at > now
    }

    /** Every revive of a finite pool is still there, reserved, handed back or forfeited. */
    ghost predicate Balanced()
      reads this
    {
      reviveTimes >= 0 ==> remaining >= 0 && reviveTimes == remaining + |due| + returned + forfeited
    }

    /** Whoever joins once a pool is used up is dead from the start. */
    predicate JoinsDead()
      reads this
    {
      remaining == 0 && deaths != 0
    }

    method OnPlayerDied(id: nat)
      modifies this`died
      ensures died == if id != 0 then old(died) + [id] else old(died)
    {
      if id != 0 {
        died := died + [id];
      }
    }

    /** One who leaves loses the revive it had reserved, and a death not yet resolved. */
    method OnPlayerLeft(id: nat)
      requires Valid()
      modifies this`due, this`died, this`forfeited
      ensures Valid() && (old(Balanced()) ==> Balanced())
      ensures due == Without(old(due), id) && id !in died
      ensures forall other :: other != id ==> (other in died <==> other in old(died))
    {
      WithoutFacts(due, id);
      hide Waiting, Without, InOrder, Others;
      forfeited := forfeited + |due| - |Without(due, id)|;
      due := Without(due, id);
      died := Others(died, id);
    }

    /** This tick's deaths reserve what revives there are. */
    method Resolve()
      requires InOrder(due)
      modifies this`remaining, this`deaths, this`due, this`died
      ensures var settled := Settled(old(died)); var granted := Granted(old(remaining), settled);
        && remaining == PoolAfter(old(remaining), |settled|) && deaths == old(deaths) + |settled|
        && due == PutAll(old(due), granted, now + delay) && died == []
    {
      hide Settled, Put;
      var settled := Settled(died);
      ghost var before, pool, count := due, remaining, deaths;
      for k := 0 to |settled|
        invariant deaths == count + k && remaining == PoolAfter(pool, k)
        invariant due == PutAll(before, Granted(pool, settled[..k]), now + delay)
      {
        assert settled[..k + 1][..k] == settled[..k];
        assert pool > k ==> settled[..k + 1] == settled[..k] + [settled[k]];
        deaths := deaths + 1;
        if remaining == 0 {
          assert Granted(pool, settled[..k + 1]) == Granted(pool, settled[..k]);
          continue;
        }
        assert Granted(pool, settled[..k + 1]) == settled[..k + 1] && Granted(pool, settled[..k]) == settled[..k];
        if remaining > 0 {
          remaining := remaining - 1;
        }
        due := Put(due, settled[k], now + delay);
      }
      assert settled[..|settled|] == settled;
      died := [];
    }

    /** Resolves the deaths, moves the clock on and hands back whose delay has run out, in
        id order, each once: no one handed back is still waiting, and no one still waiting
        is due. Late comers join dead from then on exactly where somebody has died and the
        deaths have used a finite pool up, and once one does every later one does. A finite pool stays
        balanced exactly where nobody who was granted a revive was waiting for one already. */
    method Advance(delta: real) returns (ready: seq<nat>)
      requires Valid() && delta >= 0.0 && delay >= 0.0
      modifies this
      ensures Valid() && now == old(now) + delta && died == []
      ensures var settled := Settled(old(died)); var granted := Granted(old(remaining), settled);
        var reserved := PutAll(old(due), granted, old(now) + delay);
        && remaining == PoolAfter(old(remaining), |settled|) && deaths == old(deaths) + |settled|
        && ready == Ready(reserved, now) && due == Pending(reserved, now)
      ensures Ascending(ready) && forall id :: id in ready ==> !Waiting(due, id)
      ensures JoinsDead() <==>
        0 <= old(remaining) <= |Settled(old(died))| && (old(deaths) > 0 || |Settled(old(died))| > 0)
      ensures old(JoinsDead()) ==> JoinsDead()
      ensures old(Balanced()) && reviveTimes >= 0 ==>
        (Balanced() <==> forall id :: id in Granted(old(remaining), Settled(old(died))) ==> !Waiting(old(due), id))
    {
      ghost var granted := Granted(remaining, Settled(died));
      SettledAscends(died);
      hide Settled, PutAll, Ready, Pending, Again;
      PutAllFacts(due, granted, now + delay);
      AgainZero(due, granted);
      Resolve();
      now := now + delta;
      ReadyFacts(due, now);
      ready := Ready(due, now);
      due := Pending(due, now);
      returned := returned + |ready|;
    }
  }
}
