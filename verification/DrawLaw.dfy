/** The distribution of the draw, counted rather than sampled: of all the ways the picks can
    go, exactly k! times the product of the ways to choose each entry's slots lead to given
    extras, which makes the extras multivariate hypergeometric. */
module DrawLaw {
  import opened Sums
  import opened Composition

  /** `picks` is one of `prefixes` with a last pick in [low, high). */
  ghost predicate Follows(prefixes: set<seq<nat>>, low: int, high: int, picks: seq<nat>) {
    picks != [] && picks[..|picks| - 1] in prefixes && low <= picks[|picks| - 1] < high
  }

  function Extended(picks: seq<nat>, pick: int): seq<nat>
    requires pick >= 0
  {
    picks + [pick]
  }

  /** One more pick below `high`, after each of `prefixes`. */
  ghost function AllExtended(prefixes: set<seq<nat>>, high: int): (all: set<seq<nat>>)
    ensures forall picks :: picks in all <==> Follows(prefixes, 0, high, picks)
  {
    var r := set picks, pick | picks in prefixes && pick in Range(0, high) :: Extended(picks, pick);
    assert forall picks :: Follows(prefixes, 0, high, picks) ==> picks in r by {
      forall picks: seq<nat> | Follows(prefixes, 0, high, picks) ensures picks in r {
        assert picks == Extended(picks[..|picks| - 1], picks[|picks| - 1]);
      }
    }
    r
  }

  /** Every way `k` picks can go when `total` slots are spare at the start. */
  ghost function AllPicks(total: nat, k: nat): (all: set<seq<nat>>)
    requires k <= total
    ensures forall picks :: picks in all <==> |picks| == k && PicksFit(total, picks)
  {
    if k == 0 then {[]} else AllExtended(AllPicks(total, k - 1), total - (k - 1))
  }

  /** Prefixes from one set, last picks from a range: the sizes multiply. */
  lemma {:induction false} ProductSize(prefixes: set<seq<nat>>, low: nat, high: nat, all: set<seq<nat>>)
    requires low <= high
    requires forall s :: s in all <==> Follows(prefixes, low, high, s)
    ensures |all| == |prefixes| * (high - low)
    decreases high
  {
    if low == high {
      assert all == {};
    } else {
      hide Follows;
      var rest := set s | s in all && Follows(prefixes, low, high - 1, s);
      var these := set s | s in all && Follows(prefixes, high - 1, high, s);
      forall s
        ensures Follows(prefixes, low, high, s)
          <==> Follows(prefixes, low, high - 1, s) || Follows(prefixes, high - 1, high, s)
        ensures !(Follows(prefixes, low, high - 1, s) && Follows(prefixes, high - 1, high, s))
      {
        SplitFollows(prefixes, low, high, s);
      }
      ProductSize(prefixes, low, high - 1, rest);
      OneLastSize(prefixes, high - 1, these);
      assert all == rest + these && rest !! these;
      Distribute(|prefixes|, high - low);
    }
  }

  lemma SplitFollows(prefixes: set<seq<nat>>, low: nat, high: nat, s: seq<nat>)
    requires low < high
    ensures Follows(prefixes, low, high, s)
      <==> Follows(prefixes, low, high - 1, s) || Follows(prefixes, high - 1, high, s)
    ensures !(Follows(prefixes, low, high - 1, s) && Follows(prefixes, high - 1, high, s))
  {
  }

  lemma Distribute(a: int, b: int)
    ensures a * (b - 1) + a == a * b
  {
  }

  lemma {:induction false} OneLastSize(prefixes: set<seq<nat>>, x: nat, all: set<seq<nat>>)
    requires forall s :: s in all <==> Follows(prefixes, x, x + 1, s)
    ensures |all| == |prefixes|
    decreases prefixes
  {
    if prefixes == {} {
      assert all == {};
    } else {
      var p :| p in prefixes;
      var s := p + [x];
      assert s[..|s| - 1] == p;
      assert forall t :: t in all - {s} ==> t[..|t| - 1] != p by {
        forall t | t in all - {s} ensures t[..|t| - 1] != p {
          assert t == t[..|t| - 1] + [t[|t| - 1]];
        }
      }
      OneLastSize(prefixes - {p}, x, all - {s});
    }
  }

  // ----- how many ways lead to given extras ------------------------------------------------

  ghost function Outcomes(spare: seq<nat>, dealt: seq<nat>): set<seq<nat>>
    requires Under(dealt, spare)
  {
    TotalsFit(spare, dealt);
    set picks | picks in AllPicks(Sum(spare), Sum(dealt)) && Deal(spare, picks) == dealt
  }

  lemma TotalsFit(spare: seq<nat>, dealt: seq<nat>)
    requires Under(dealt, spare)
    ensures Sum(dealt) <= Sum(spare)
  {
    SumPointwise(dealt, spare);
  }

  /** The ways to choose, in every entry, which of its spare slots are filled. */
  function Ways(spare: seq<nat>, dealt: seq<nat>): nat
    requires |spare| == |dealt|
  {
    if spare == [] then 1
    else Ways(spare[..|spare| - 1], dealt[..|spare| - 1]) * Choose(spare[|spare| - 1], dealt[|spare| - 1])
  }

  lemma {:induction false} WaysStep(spare: seq<nat>, dealt: seq<nat>, e: nat)
    requires Under(dealt, spare) && e < |dealt| && dealt[e] > 0
    ensures Ways(spare, dealt[e := dealt[e] - 1]) * (spare[e] - dealt[e] + 1) == dealt[e] * Ways(spare, dealt)
  {
    var last := |spare| - 1;
    var less := dealt[e := dealt[e] - 1];
    if e == last {
      assert less[..last] == dealt[..last];
      ChooseStep(spare[e], dealt[e]);
      Reassociate(Ways(spare[..last], dealt[..last]), Choose(spare[e], dealt[e] - 1), spare[e] - dealt[e] + 1);
      Swap(Ways(spare[..last], dealt[..last]), dealt[e], Choose(spare[e], dealt[e]));
    } else {
      assert less[..last] == dealt[..last][e := dealt[e] - 1];
      WaysStep(spare[..last], dealt[..last], e);
      var w, v, c := Ways(spare[..last], less[..last]), Ways(spare[..last], dealt[..last]),
        Choose(spare[last], dealt[last]);
      Across(w, c, spare[e] - dealt[e] + 1, dealt[e], v);
    }
  }

  lemma Swap(a: int, b: int, c: int)
    ensures a * (b * c) == b * (a * c)
  {
  }

  lemma Across(w: int, c: int, n: int, d: int, v: int)
    requires w * n == d * v
    ensures (w * c) * n == d * (v * c)
  {
    assert (w * c) * n == (w * n) * c;
    assert (d * v) * c == d * (v * c);
  }

  lemma {:induction false} WaysOfNothing(spare: seq<nat>)
    ensures Ways(spare, Zeros(|spare|)) == 1
  {
    if spare != [] {
      assert Zeros(|spare|)[..|spare| - 1] == Zeros(|spare| - 1);
      WaysOfNothing(spare[..|spare| - 1]);
    }
  }

  /** The entry the last pick landed in. */
  function LastEntry(spare: seq<nat>, picks: seq<nat>): (e: nat)
    requires PicksFit(Sum(spare), picks) && picks != []
    ensures e < |spare|
  {
    SumMinus(spare, Deal(spare, picks[..|picks| - 1]));
    Slot(Minus(spare, Deal(spare, picks[..|picks| - 1])), picks[|picks| - 1])
  }

  ghost function Through(spare: seq<nat>, dealt: seq<nat>, e: nat): set<seq<nat>>
    requires Under(dealt, spare) && Sum(dealt) > 0
  {
    set picks | picks in Outcomes(spare, dealt) && LastEntry(spare, picks) == e
  }

  lemma FitsPrefix(total: nat, picks: seq<nat>)
    requires picks != []
    ensures PicksFit(total, picks) <==>
      PicksFit(total, picks[..|picks| - 1]) && |picks| <= total && picks[|picks| - 1] < total - (|picks| - 1)
  {
    assert forall j :: 0 <= j < |picks| - 1 ==> picks[j] == picks[..|picks| - 1][j];
  }

  lemma BumpBack(s: seq<nat>, e: nat, t: seq<nat>)
    requires e < |t| && t[e] > 0
    ensures e < |s| && Bumped(s, e) == t <==> s == t[e := t[e] - 1]
  {
    if e < |s| && Bumped(s, e) == t {
      assert s == t[e := t[e] - 1];
    }
  }

  /** The outcomes whose last pick landed in entry `e`: a shorter outcome, then any of
      the slots `e` had left. */
  lemma ThroughIsProduct(spare: seq<nat>, dealt: seq<nat>, e: nat, picks: seq<nat>)
    requires Under(dealt, spare) && e < |dealt| && dealt[e] > 0 && Sum(dealt) > 0
    ensures var less := dealt[e := dealt[e] - 1]; var low := Sum(Minus(spare, less)[..e]);
      picks in Through(spare, dealt, e) <==> Follows(Outcomes(spare, less), low, low + (spare[e] - dealt[e] + 1), picks)
  {
    hide Outcomes, Deal, LastEntry, Sum;
    var less := dealt[e := dealt[e] - 1];
    var low := Sum(Minus(spare, less)[..e]);
    if picks in Through(spare, dealt, e) {
      OutcomeIff(spare, dealt, picks);
      ThroughFollows(spare, dealt, e, picks);
    }
    if Follows(Outcomes(spare, less), low, low + (spare[e] - dealt[e] + 1), picks) {
      FollowsThrough(spare, dealt, e, picks);
    }
  }

  lemma ThroughFollows(spare: seq<nat>, dealt: seq<nat>, e: nat, picks: seq<nat>)
    requires Under(dealt, spare) && e < |dealt| && dealt[e] > 0 && picks != []
    requires picks in Outcomes(spare, dealt) && LastEntry(spare, picks) == e
    ensures var less := dealt[e := dealt[e] - 1]; var low := Sum(Minus(spare, less)[..e]);
      Follows(Outcomes(spare, less), low, low + (spare[e] - dealt[e] + 1), picks)
  {
    hide Deal, LastEntry, Sum, PicksFit, Outcomes;
    var less := dealt[e := dealt[e] - 1];
    OutcomeIff(spare, dealt, picks);
    SlotsFit(spare, dealt, e);
    LastPick(spare, picks, dealt, e);
    OutcomeIff(spare, less, picks[..|picks| - 1]);
  }

  lemma FollowsThrough(spare: seq<nat>, dealt: seq<nat>, e: nat, picks: seq<nat>)
    requires Under(dealt, spare) && e < |dealt| && dealt[e] > 0
    requires var less := dealt[e := dealt[e] - 1]; var low := Sum(Minus(spare, less)[..e]);
      Follows(Outcomes(spare, less), low, low + (spare[e] - dealt[e] + 1), picks)
    ensures picks in Outcomes(spare, dealt) && LastEntry(spare, picks) == e
  {
    hide Deal, LastEntry, Sum, PicksFit, Outcomes;
    var less := dealt[e := dealt[e] - 1];
    SlotsFit(spare, dealt, e);
    OutcomeIff(spare, less, picks[..|picks| - 1]);
    FitsPrefix(Sum(spare), picks);
    LastPick(spare, picks, dealt, e);
    OutcomeIff(spare, dealt, picks);
  }

  lemma OutcomeIff(spare: seq<nat>, dealt: seq<nat>, picks: seq<nat>)
    requires Under(dealt, spare)
    ensures picks in Outcomes(spare, dealt)
      <==> |picks| == Sum(dealt) && PicksFit(Sum(spare), picks) && Deal(spare, picks) == dealt
  {
  }

  lemma SlotsFit(spare: seq<nat>, dealt: seq<nat>, e: nat)
    requires Under(dealt, spare) && e < |dealt| && dealt[e] > 0
    ensures var less := dealt[e := dealt[e] - 1]; var room := Minus(spare, less);
      && Sum(less) == Sum(dealt) - 1 && room[e] == spare[e] - dealt[e] + 1
      && Sum(room[..e]) + room[e] <= Sum(spare) - Sum(less)
  {
    var less := dealt[e := dealt[e] - 1];
    var room := Minus(spare, less);
    SumUpdate(dealt, e, dealt[e] - 1);
    SumMinus(spare, less);
    SumPrefix(room, e);
    SumPrefixBound(room, e + 1);
  }

  lemma LastPick(spare: seq<nat>, picks: seq<nat>, dealt: seq<nat>, e: nat)
    requires Under(dealt, spare) && e < |dealt| && dealt[e] > 0
    requires PicksFit(Sum(spare), picks) && picks != []
    ensures var less := dealt[e := dealt[e] - 1]; var room := Minus(spare, less); var last := |picks| - 1;
      && PicksFit(Sum(spare), picks[..last])
      && (Deal(spare, picks) == dealt && LastEntry(spare, picks) == e <==>
            && Deal(spare, picks[..last]) == less
            && Sum(room[..e]) <= picks[last] < Sum(room[..e]) + room[e])
  {
    var less := dealt[e := dealt[e] - 1];
    var room := Minus(spare, less);
    var last := |picks| - 1;
    FitsPrefix(Sum(spare), picks);
    var before := Deal(spare, picks[..last]);
    SumMinus(spare, before);
    BumpBack(before, e, dealt);
    if before == less && Sum(room[..e]) <= picks[last] < Sum(room[..e]) + room[e] {
      SlotIsUnique(room, picks[last], e);
    }
  }

  lemma ThroughNothing(spare: seq<nat>, dealt: seq<nat>, e: nat)
    requires Under(dealt, spare) && e < |dealt| && Sum(dealt) > 0 && dealt[e] == 0
    ensures Through(spare, dealt, e) == {}
  {
    forall picks | picks in Outcomes(spare, dealt) ensures LastEntry(spare, picks) != e {
      var last := |picks| - 1;
      FitsPrefix(Sum(spare), picks);
      SumMinus(spare, Deal(spare, picks[..last]));
      assert Deal(spare, picks) == Bumped(Deal(spare, picks[..last]), LastEntry(spare, picks));
    }
  }

  lemma ThroughSize(spare: seq<nat>, dealt: seq<nat>, e: nat)
    requires Under(dealt, spare) && e < |dealt| && Sum(dealt) > 0
    requires dealt[e] > 0 ==> var less := dealt[e := dealt[e] - 1];
               |Outcomes(spare, less)| == Factorial(Sum(dealt) - 1) * Ways(spare, less)
    ensures |Through(spare, dealt, e)| == Factorial(Sum(dealt) - 1) * Ways(spare, dealt) * dealt[e]
  {
    hide Outcomes, Through, Ways, Factorial, Sum, Follows;
    if dealt[e] == 0 {
      ThroughNothing(spare, dealt, e);
    } else {
      var less := dealt[e := dealt[e] - 1];
      var low := Sum(Minus(spare, less)[..e]);
      var n := spare[e] - dealt[e] + 1;
      forall picks ensures picks in Through(spare, dealt, e) <==> Follows(Outcomes(spare, less), low, low + n, picks) {
        ThroughIsProduct(spare, dealt, e, picks);
      }
      ProductSize(Outcomes(spare, less), low, low + n, Through(spare, dealt, e));
      WaysStep(spare, dealt, e);
      Multiply(Factorial(Sum(dealt) - 1), Ways(spare, less), n, dealt[e], Ways(spare, dealt));
    }
  }

  lemma Multiply(f: int, w: int, n: int, d: int, v: int)
    requires w * n == d * v
    ensures f * w * n == f * v * d
  {
    assert f * w * n == f * (w * n);
    assert f * v * d == f * (d * v);
  }

  ghost function UpTo(spare: seq<nat>, dealt: seq<nat>, n: nat): set<seq<nat>>
    requires Under(dealt, spare) && Sum(dealt) > 0
  {
    set picks | picks in Outcomes(spare, dealt) && LastEntry(spare, picks) < n
  }

  lemma {:induction false} UpToSize(spare: seq<nat>, dealt: seq<nat>, each: nat, n: nat)
    requires Under(dealt, spare) && n <= |dealt| && Sum(dealt) > 0
    requires forall e :: 0 <= e < |dealt| ==> |Through(spare, dealt, e)| == each * dealt[e]
    ensures |UpTo(spare, dealt, n)| == each * Sum(dealt[..n])
  {
    hide Outcomes, LastEntry, Sum, Under;
    if n == 0 {
      assert UpTo(spare, dealt, 0) == {};
      assert Sum(dealt[..0]) == 0 by { SumNothing(dealt); }
    } else {
      UpToSize(spare, dealt, each, n - 1);
      SumPrefix(dealt, n - 1);
      UpToNext(spare, dealt, n - 1);
      Spread(each, Sum(dealt[..n - 1]), dealt[n - 1]);
    }
  }

  lemma SumNothing(s: seq<nat>)
    ensures Sum(s[..0]) == 0
  {
  }

  lemma UpToNext(spare: seq<nat>, dealt: seq<nat>, n: nat)
    requires Under(dealt, spare) && n < |dealt| && Sum(dealt) > 0
    ensures |UpTo(spare, dealt, n + 1)| == |UpTo(spare, dealt, n)| + |Through(spare, dealt, n)|
  {
    hide Outcomes, LastEntry, Sum;
    assert UpTo(spare, dealt, n + 1) == UpTo(spare, dealt, n) + Through(spare, dealt, n);
    assert UpTo(spare, dealt, n) !! Through(spare, dealt, n);
  }

  lemma Spread(each: int, a: int, b: int)
    ensures each * (a + b) == each * a + each * b
  {
  }

  /** The counting law. */
  lemma {:induction false} OutcomesCount(spare: seq<nat>, dealt: seq<nat>)
    requires Under(dealt, spare)
    ensures |Outcomes(spare, dealt)| == Factorial(Sum(dealt)) * Ways(spare, dealt)
    decreases Sum(dealt)
  {
    hide Outcomes, Ways, Factorial, Through, UpTo, Sum;
    if Sum(dealt) == 0 {
      OutcomesOfNothing(spare, dealt);
    } else {
      var f, w := Factorial(Sum(dealt) - 1), Ways(spare, dealt);
      forall e | 0 <= e < |dealt| ensures |Through(spare, dealt, e)| == f * w * dealt[e] {
        if dealt[e] > 0 {
          SumUpdate(dealt, e, dealt[e] - 1);
          OutcomesCount(spare, dealt[e := dealt[e] - 1]);
        }
        ThroughSize(spare, dealt, e);
      }
      UpToSize(spare, dealt, f * w, |dealt|);
      UpToAll(spare, dealt);
      FactorialStep(Sum(dealt));
      Gather(f, w, Sum(dealt));
    }
  }

  lemma OutcomesOfNothing(spare: seq<nat>, dealt: seq<nat>)
    requires Under(dealt, spare) && Sum(dealt) == 0
    ensures |Outcomes(spare, dealt)| == Factorial(Sum(dealt)) * Ways(spare, dealt)
  {
    SumZeros(|dealt|);
    SumPointwise(Zeros(|dealt|), dealt);
    assert dealt == Zeros(|spare|);
    WaysOfNothing(spare);
    assert Outcomes(spare, dealt) == {[]};
  }

  lemma UpToAll(spare: seq<nat>, dealt: seq<nat>)
    requires Under(dealt, spare) && Sum(dealt) > 0
    ensures dealt[..|dealt|] == dealt && UpTo(spare, dealt, |dealt|) == Outcomes(spare, dealt)
  {
  }

  lemma FactorialStep(k: nat)
    requires k > 0
    ensures Factorial(k) == k * Factorial(k - 1)
  {
  }

  lemma Gather(f: int, w: int, k: int)
    ensures f * w * k == k * f * w
  {
  }

  lemma {:induction false} AllPicksCount(total: nat, k: nat)
    requires k <= total
    ensures |AllPicks(total, k)| == Falling(total, k)
  {
    if k == 0 {
      assert AllPicks(total, 0) == {[]};
    } else {
      AllPicksCount(total, k - 1);
      AllPicksStep(total, k, Falling(total, k - 1));
    }
  }

  lemma AllPicksStep(total: nat, k: nat, f: nat)
    requires 0 < k <= total && |AllPicks(total, k - 1)| == f
    ensures |AllPicks(total, k)| == f * (total - k + 1)
  {
    hide AllPicks, Follows;
    AllPicksFollow(total, k);
    ProductSize(AllPicks(total, k - 1), 0, total - (k - 1), AllPicks(total, k));
    assert total - (k - 1) - 0 == total - k + 1;
  }

  lemma AllPicksFollow(total: nat, k: nat)
    requires 0 < k <= total
    ensures forall picks :: picks in AllPicks(total, k) <==> Follows(AllPicks(total, k - 1), 0, total - (k - 1), picks)
  {
    hide AllPicks, PicksFit;
    forall picks ensures picks in AllPicks(total, k) <==> Follows(AllPicks(total, k - 1), 0, total - (k - 1), picks) {
      if picks != [] { FitsPrefix(total, picks); }
    }
  }

  /** The header's law: with every pick equally likely, each entry's extras are
      hypergeometric. Of all pick sequences, the share leading to `dealt` is the
      product of the entries' choices over the choices of k slots out of all. */
  lemma Hypergeometric(spare: seq<nat>, dealt: seq<nat>)
    requires Under(dealt, spare)
    ensures Sum(dealt) <= Sum(spare)
    ensures |Outcomes(spare, dealt)| * Choose(Sum(spare), Sum(dealt))
         == Ways(spare, dealt) * |AllPicks(Sum(spare), Sum(dealt))|
  {
    hide Outcomes, Ways, Factorial, Choose, AllPicks, Sum, PicksFit;
    var t, k := Sum(spare), Sum(dealt);
    TotalsFit(spare, dealt);
    OutcomesCount(spare, dealt);
    AllPicksCount(t, k);
    FallingIsChoose(t, k);
    Share(|Outcomes(spare, dealt)|, Factorial(k), Ways(spare, dealt), Choose(t, k), |AllPicks(t, k)|);
  }

  lemma Share(outcomes: int, f: int, w: int, c: int, all: int)
    requires outcomes == f * w && all == f * c
    ensures outcomes * c == w * all
  {
    assert f * w * c == w * (f * c);
  }
}
