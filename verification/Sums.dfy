/** Sums, products and counts over sequences, and the little arithmetic they need. */
module Sums {

  function Sum(s: seq<nat>): nat {
    if s == [] then 0 else Sum(s[..|s| - 1]) + s[|s| - 1]
  }

  lemma SumPrefix(s: seq<nat>, i: nat)
    requires i < |s|
    ensures Sum(s[..i + 1]) == Sum(s[..i]) + s[i]
  {
    assert s[..i + 1][..i] == s[..i];
  }

  lemma {:induction false} SumUpdate(s: seq<nat>, i: nat, x: nat)
    requires i < |s|
    ensures Sum(s[i := x]) + s[i] == Sum(s) + x
  {
    var last := |s| - 1;
    if i == last {
      assert s[i := x][..last] == s[..last];
    } else {
      assert s[i := x][..last] == s[..last][i := x];
      SumUpdate(s[..last], i, x);
    }
  }

  lemma {:induction false} SumPrefixBound(s: seq<nat>, i: nat)
    requires i <= |s|
    ensures Sum(s[..i]) <= Sum(s)
  {
    if i < |s| {
      assert s[..|s| - 1][..i] == s[..i];
      SumPrefixBound(s[..|s| - 1], i);
    } else {
      assert s[..i] == s;
    }
  }

  lemma {:induction false} SumPointwise(s: seq<nat>, t: seq<nat>)
    requires |s| == |t| && forall i :: 0 <= i < |s| ==> s[i] <= t[i]
    ensures Sum(s) <= Sum(t)
    ensures Sum(s) == Sum(t) ==> s == t
  {
    if s != [] {
      var last := |s| - 1;
      SumPointwise(s[..last], t[..last]);
      if Sum(s) == Sum(t) {
        assert s == s[..last] + [s[last]] && t == t[..last] + [t[last]];
      }
    }
  }

  function Zeros(n: nat): (z: seq<nat>)
    ensures |z| == n && forall i :: 0 <= i < n ==> z[i] == 0
  {
    seq(n, _ => 0)
  }

  lemma {:induction false} SumZeros(n: nat)
    ensures Sum(Zeros(n)) == 0
  {
    if n > 0 {
      assert Zeros(n)[..n - 1] == Zeros(n - 1);
      SumZeros(n - 1);
    }
  }

  // ----- counting ------------------------------------------------------------------

  function Factorial(n: nat): nat {
    if n == 0 then 1 else n * Factorial(n - 1)
  }

  function Choose(n: nat, m: nat): nat {
    if m == 0 then 1 else if n == 0 then 0 else Choose(n - 1, m - 1) + Choose(n - 1, m)
  }

  lemma {:induction false} ChooseTooMany(n: nat, m: nat)
    requires m > n
    ensures Choose(n, m) == 0
  {
    if n > 0 {
      ChooseTooMany(n - 1, m - 1);
      ChooseTooMany(n - 1, m);
    }
  }

  /** Taking the last of m out of n one way or the other. */
  lemma {:induction false} ChooseStep(n: nat, m: nat)
    requires 1 <= m <= n
    ensures Choose(n, m - 1) * (n - m + 1) == m * Choose(n, m)
  {
    var a, b := Choose(n - 1, m - 1), Choose(n - 1, m);
    if m < n {
      ChooseStep(n - 1, m);
    } else {
      ChooseTooMany(n - 1, m);
    }
    assert Choose(n, m) == a + b;
    StepUp(n, m, a, b);
    if m >= 2 {
      var z := Choose(n - 1, m - 2);
      ChooseStep(n - 1, m - 1);
      assert Choose(n, m - 1) == z + a;
      StepAcross(n, m, a, z);
    }
  }

  lemma StepUp(n: int, m: int, a: int, b: int)
    requires a * (n - m) == m * b
    ensures m * (a + b) == a * n
  {
  }

  lemma StepAcross(n: int, m: int, a: int, z: int)
    requires z * (n - m + 1) == (m - 1) * a
    ensures (z + a) * (n - m + 1) == a * n
  {
  }

  /** Ordered picks of k out of n. */
  function Falling(n: nat, k: nat): nat {
    if k == 0 then 1 else if k > n then 0 else Falling(n, k - 1) * (n - k + 1)
  }

  lemma {:induction false} FallingIsChoose(n: nat, k: nat)
    ensures Falling(n, k) == Factorial(k) * Choose(n, k)
  {
    if k > n {
      ChooseTooMany(n, k);
    } else if k > 0 {
      FallingIsChoose(n, k - 1);
      ChooseStep(n, k);
      Reassociate(Factorial(k - 1), Choose(n, k - 1), n - k + 1);
      Reassociate(Factorial(k - 1), k, Choose(n, k));
    }
  }

  lemma Reassociate(x: int, y: int, z: int)
    ensures x * y * z == x * (y * z) && y * x == x * y
  {
  }

  // ----- finite sets ----------------------------------------------------------------

  function Range(low: int, high: int): (r: set<int>)
    ensures forall x :: x in r <==> low <= x < high
    ensures |r| == if low <= high then high - low else 0
    decreases high - low
  {
    if low >= high then {} else Range(low, high - 1) + {high - 1}
  }
}
