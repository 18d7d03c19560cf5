/** Waves: so many of each entry of a composition asked of the kernel in order, whatever it refuses. */
module Waves {
  import opened AgentKernel
  import opened Sums
  import Composition

  function Copies(template: nat, n: nat): (r: seq<nat>)
    ensures |r| == n && forall k :: 0 <= k < n ==> r[k] == template
  {
    seq(n, _ => template)
  }

  /** The templates of a wave, entry by entry. */
  function Units(composition: seq<Composition.Entry>, drawn: seq<nat>): seq<nat>
    requires |drawn| == |composition|
  {
    if composition == [] then []
    else
      var last := |composition| - 1;
      Units(composition[..last], drawn[..last]) + Copies(composition[last].templateId, drawn[last])
  }

  /** As many of each entry as were drawn, the entries in order. */
  lemma {:induction false} UnitsAre(composition: seq<Composition.Entry>, drawn: seq<nat>, entry: nat, k: nat)
    requires |drawn| == |composition| && entry < |drawn| && k < drawn[entry]
    ensures |Units(composition, drawn)| == Sum(drawn)
    ensures Sum(drawn[..entry]) + k < Sum(drawn)
    ensures Units(composition, drawn)[Sum(drawn[..entry]) + k] == composition[entry].templateId
  {
    var last := |composition| - 1;
    UnitsSize(composition, drawn);
    UnitsSize(composition[..last], drawn[..last]);
    SumPrefix(drawn, last);
    assert drawn[..last + 1] == drawn;
    if entry < last {
      UnitsAre(composition[..last], drawn[..last], entry, k);
      assert drawn[..last][..entry] == drawn[..entry];
    }
  }

  lemma {:induction false} UnitsSize(composition: seq<Composition.Entry>, drawn: seq<nat>)
    requires |drawn| == |composition|
    ensures |Units(composition, drawn)| == Sum(drawn)
  {
    if composition != [] {
      var last := |composition| - 1;
      UnitsSize(composition[..last], drawn[..last]);
      SumPrefix(drawn, last);
      assert drawn[..last + 1] == drawn;
    }
  }

  /** What a random stream draws: its first word sizes the wave where the size may vary, the next ones
      fill it. */
  function WaveOf(composition: seq<Composition.Entry>, countMin: nat, countMax: nat, count: nat, values: nat -> nat)
    : seq<nat>
    requires Composition.BandsOpen(composition)
  {
    var drawn := Composition.Drawn(composition, count, values, if countMin < countMax then 1 else 0);
    if |drawn| == |composition| then Units(composition, drawn) else []
  }

  /** As many as were asked for, of a validated composition. */
  lemma WaveSize(composition: seq<Composition.Entry>, countMin: nat, countMax: nat, count: nat, values: nat -> nat)
    requires Composition.Valid(composition, countMin, countMax) && countMin <= count <= countMax
    ensures |WaveOf(composition, countMin, countMax, count, values)| == count
  {
    var start := if countMin < countMax then 1 else 0;
    Composition.TotalLaw(composition, count, values, start);
    UnitsSize(composition, Composition.Drawn(composition, count, values, start));
  }

  lemma WaveIs(composition: seq<Composition.Entry>, countMin: nat, countMax: nat, count: nat, values: nat -> nat,
               used: nat, drawn: seq<nat>)
    requires Composition.BandsOpen(composition) && |drawn| == |composition|
    requires used == (if countMin < countMax then 1 else 0)
    requires drawn == Composition.Drawn(composition, count, values, used)
    ensures WaveOf(composition, countMin, countMax, count, values) == Units(composition, drawn)
  {
    hide Units;
  }

  lemma OneCopyMore(units: seq<nat>, template: nat, n: nat)
    ensures units + Copies(template, n) + [template] == units + Copies(template, n + 1)
  {
  }

  lemma UnitsNext(composition: seq<Composition.Entry>, drawn: seq<nat>, entry: nat)
    requires |drawn| == |composition| && entry < |drawn|
    ensures Units(composition[..entry + 1], drawn[..entry + 1])
      == Units(composition[..entry], drawn[..entry]) + Copies(composition[entry].templateId, drawn[entry])
  {
    assert composition[..entry + 1][..entry] == composition[..entry] && drawn[..entry + 1][..entry] == drawn[..entry];
  }

  /** The ids of those that were given, in order. */
  function Given(made: seq<Request>): (ids: seq<nat>) {
    if made == [] then []
    else
      var last := made[|made| - 1];
      Given(made[..|made| - 1]) + if last.id != 0 then [last.id] else []
  }
}
