/** The weighted draw that decides what a squad or a wave is made of: it fills every
    band, hits the total it was asked for, and deals the remainder into the spare
    slots uniformly. */
module Composition {
  import opened Sums

  datatype Entry = Entry(templateId: nat, min: nat, max: nat)

  function Floors(composition: seq<Entry>): seq<nat> {
    seq(|composition|, i requires 0 <= i < |composition| => composition[i].min)
  }

  function Ceilings(composition: seq<Entry>): seq<nat> {
    seq(|composition|, i requires 0 <= i < |composition| => composition[i].max)
  }

  predicate BandsOpen(composition: seq<Entry>) {
    forall i :: 0 <= i < |composition| ==> composition[i].min <= composition[i].max
  }

  function Minus(s: seq<nat>, t: seq<nat>): (r: seq<nat>)
    requires Under(t, s)
    ensures |r| == |s|
  {
    seq(|s|, i requires 0 <= i < |s| => s[i] - t[i])
  }

  function Plus(s: seq<nat>, t: seq<nat>): (r: seq<nat>)
    requires |s| == |t|
    ensures |r| == |s|
  {
    seq(|s|, i requires 0 <= i < |s| => s[i] + t[i])
  }

  predicate Under(t: seq<nat>, s: seq<nat>) {
    |t| == |s| && forall i :: 0 <= i < |s| ==> t[i] <= s[i]
  }

  /** The room each entry has above its floor. */
  function Spare(composition: seq<Entry>): seq<nat>
    requires BandsOpen(composition)
  {
    Minus(Ceilings(composition), Floors(composition))
  }

  lemma {:induction false} SumMinus(s: seq<nat>, t: seq<nat>)
    requires Under(t, s)
    ensures Sum(Minus(s, t)) == Sum(s) - Sum(t)
  {
    if s != [] {
      var last := |s| - 1;
      assert Minus(s, t)[..last] == Minus(s[..last], t[..last]);
      SumMinus(s[..last], t[..last]);
    }
  }

  lemma {:induction false} SumPlus(s: seq<nat>, t: seq<nat>)
    requires |s| == |t|
    ensures Sum(Plus(s, t)) == Sum(s) + Sum(t)
  {
    if s != [] {
      var last := |s| - 1;
      assert Plus(s, t)[..last] == Plus(s[..last], t[..last]);
      SumPlus(s[..last], t[..last]);
    }
  }

  // ----- dealing a remainder ---------------------------------------------------------------

  /** The entry whose room a pick lands in. */
  function Slot(room: seq<nat>, pick: nat): (e: nat)
    requires pick < Sum(room)
    ensures e < |room| && Sum(room[..e]) <= pick < Sum(room[..e]) + room[e]
  {
    var last := |room| - 1;
    if pick >= Sum(room[..last]) then last
    else
      var e := Slot(room[..last], pick);
      assert room[..last][..e] == room[..e];
      e
  }

  lemma SlotIsUnique(room: seq<nat>, pick: nat, e: nat)
    requires pick < Sum(room) && e < |room| && Sum(room[..e]) <= pick < Sum(room[..e]) + room[e]
    ensures Slot(room, pick) == e
  {
    var f := Slot(room, pick);
    SumPrefix(room, e);
    SumPrefix(room, f);
    if e < f {
      assert room[..f][..e + 1] == room[..e + 1];
      SumPrefixBound(room[..f], e + 1);
    } else if f < e {
      assert room[..e][..f + 1] == room[..f + 1];
      SumPrefixBound(room[..e], f + 1);
    }
  }

  /** One pick after another, each below what is left of `total`. */
  predicate PicksFit(total: nat, picks: seq<nat>) {
    |picks| <= total && forall j :: 0 <= j < |picks| ==> picks[j] < total - j
  }

  function Deal(spare: seq<nat>, picks: seq<nat>): (dealt: seq<nat>)
    requires PicksFit(Sum(spare), picks)
    ensures Under(dealt, spare) && Sum(dealt) == |picks|
    decreases |picks|
  {
    if picks == [] then
      SumZeros(|spare|);
      Zeros(|spare|)
    else
      var last := |picks| - 1;
      var before := Deal(spare, picks[..last]);
      SumMinus(spare, before);
      var e := Slot(Minus(spare, before), picks[last]);
      SumUpdate(before, e, before[e] + 1);
      Bumped(before, e)
  }

  // ----- the draw -----------------------------------------------------------------------------

  class RandomStream {
    const values: nat -> nat
    var used: nat

    constructor (values: nat -> nat)
      ensures this.values == values && used == 0
    {
      this.values := values;
      used := 0;
    }

    method Next() returns (value: nat)
      modifies this
      ensures value == values(old(used)) && used == old(used) + 1
    {
      value := values(used);
      used := used + 1;
    }
  }

  /** A number in the range, both ends included: the next word of the stream from the low end
      up, round and round. A range that is a point takes no word. */
  method NextInRange(random: RandomStream, low: nat, high: nat) returns (value: nat)
    modifies random
    ensures random.used == old(random.used) + if high <= low then 0 else 1
    ensures value == InRange(random.values(old(random.used)), low, high)
  {
    if high <= low {
      return low;
    }
    var next := random.Next();
    value := low + next % (high - low + 1);
  }

  function InRange(word: nat, low: nat, high: nat): (value: nat) {
    if high <= low then low else low + word % (high - low + 1)
  }

  /** Both ends included, and as far up from the low end as the word goes round the range. */
  lemma InRangeIs(word: nat, low: nat, high: nat)
    ensures var value := InRange(word, low, high);
      && low <= value && (value <= high || value == low)
      && (low < high ==> SameRoundAndRound(word, value - low, high - low + 1))
  {
    if low < high {
      var size := high - low + 1;
      assert word == InRange(word, low, high) - low + Rounds(word / size, size);
    }
  }

  /** So many whole rounds apart. */
  ghost predicate SameRoundAndRound(word: nat, offset: int, size: int) {
    exists q: nat :: word == offset + Rounds(q, size)
  }

  function Rounds(q: nat, size: int): int {
    q * size
  }

  function Reduced(value: nat, total: nat): (pick: nat)
    requires total > 0
    ensures pick < total
  {
    value % total
  }

  /** The picks a stream gives from `start` on, each reduced to what is then left. */
  function PicksFrom(values: nat -> nat, start: nat, total: nat, count: nat): (picks: seq<nat>)
    requires count <= total
    ensures |picks| == count && PicksFit(total, picks)
  {
    seq(count, j requires 0 <= j < count => values(start + j) % (total - j))
  }

  /** Each pick is the next word of the stream, round and round what is then left. */
  lemma PickIs(values: nat -> nat, start: nat, total: nat, count: nat, j: nat)
    requires j < count <= total
    ensures var pick := PicksFrom(values, start, total, count)[j];
      pick < total - j && SameRoundAndRound(values(start + j), pick, total - j)
  {
    var size, word := total - j, values(start + j);
    assert word == PicksFrom(values, start, total, count)[j] + Rounds(word / size, size);
  }

  /** How much of the remainder there is room to deal. */
  function Remainder(composition: seq<Entry>, count: nat): (k: nat)
    requires BandsOpen(composition)
    ensures k <= Sum(Spare(composition))
  {
    var wanted := if count > Sum(Floors(composition)) then count - Sum(Floors(composition)) else 0;
    if wanted < Sum(Spare(composition)) then wanted else Sum(Spare(composition))
  }

  /** The squad after some picks. */
  function After(composition: seq<Entry>, picks: seq<nat>): seq<nat>
    requires BandsOpen(composition) && PicksFit(Sum(Spare(composition)), picks)
  {
    Plus(Floors(composition), Deal(Spare(composition), picks))
  }

  function Drawn(composition: seq<Entry>, count: nat, values: nat -> nat, start: nat): seq<nat>
    requires BandsOpen(composition)
  {
    After(composition, PicksFrom(values, start, Sum(Spare(composition)), Remainder(composition, count)))
  }

  /** What every entry has left, and in all. */
  function Room(composition: seq<Entry>, drawn: seq<nat>): seq<nat>
    requires Under(drawn, Ceilings(composition))
  {
    Minus(Ceilings(composition), drawn)
  }

  method Capacity(composition: seq<Entry>, drawn: seq<nat>) returns (total: nat)
    requires Under(drawn, Ceilings(composition))
    ensures total == Sum(Room(composition, drawn))
  {
    total := 0;
    ghost var room := Room(composition, drawn);
    for index := 0 to |drawn|
      invariant total == Sum(room[..index])
    {
      SumPrefix(room, index);
      total := total + (composition[index].max - drawn[index]);
    }
    assert room[..|drawn|] == room;
  }

  /** Walks the entries until the pick lands; a pick below the total always does. */
  method PlacePick(composition: seq<Entry>, drawn: seq<nat>, pick: nat) returns (placed: seq<nat>)
    requires Under(drawn, Ceilings(composition)) && pick < Sum(Room(composition, drawn))
    ensures var e := Slot(Room(composition, drawn), pick); placed == Bumped(drawn, e)
  {
    ghost var room := Room(composition, drawn);
    assert room[..|drawn|] == room;
    var left := pick;
    var index := 0;
    while index < |drawn|
      invariant 0 <= index <= |drawn| && 0 <= left && pick == left + Sum(room[..index])
    {
      var capacity := composition[index].max - drawn[index];
      if left < capacity {
        SlotIsUnique(room, pick, index);
        return drawn[index := drawn[index] + 1];
      }
      SumPrefix(room, index);
      left := left - capacity;
      index := index + 1;
    }
    assert false;
  }

  method AssignFloors(composition: seq<Entry>) returns (drawn: seq<nat>, total: nat)
    ensures drawn == Floors(composition) && total == Sum(drawn)
  {
    drawn, total := [], 0;
    for index := 0 to |composition|
      invariant drawn == Floors(composition)[..index] && total == Sum(drawn)
    {
      SumPrefix(Floors(composition), index);
      drawn := drawn + [composition[index].min];
      total := total + composition[index].min;
    }
    assert drawn == Floors(composition);
  }

  /** The squad after the first `k` picks of a stream from `start` on. */
  ghost function Progress(composition: seq<Entry>, values: nat -> nat, start: nat, k: nat): seq<nat>
    requires BandsOpen(composition) && k <= Sum(Spare(composition))
  {
    After(composition, PicksFrom(values, start, Sum(Spare(composition)), k))
  }

  lemma ProgressRoom(composition: seq<Entry>, values: nat -> nat, start: nat, k: nat)
    requires BandsOpen(composition) && k <= Sum(Spare(composition))
    ensures var drawn := Progress(composition, values, start, k);
      Under(drawn, Ceilings(composition)) && Sum(Room(composition, drawn)) == Sum(Spare(composition)) - k
  {
    RoomAfter(composition, PicksFrom(values, start, Sum(Spare(composition)), k));
  }

  lemma ProgressOne(composition: seq<Entry>, values: nat -> nat, start: nat, k: nat)
    requires BandsOpen(composition) && k < Sum(Spare(composition))
    ensures var drawn := Progress(composition, values, start, k);
      && Under(drawn, Ceilings(composition)) && Sum(Room(composition, drawn)) == Sum(Spare(composition)) - k
      && var e := Slot(Room(composition, drawn), Reduced(values(start + k), Sum(Spare(composition)) - k));
         e < |drawn| && Progress(composition, values, start, k + 1) == Bumped(drawn, e)
  {
    hide Progress, After, Slot, Deal, Bumped, Spare, PicksFrom, PicksFit, Sum, Reduced, BandsOpen, Floors;
    var spare := Sum(Spare(composition));
    ProgressRoom(composition, values, start, k);
    ProgressIs(composition, values, start, k);
    ProgressIs(composition, values, start, k + 1);
    NextPick(values, start, spare, k);
    OnePick(composition, PicksFrom(values, start, spare, k), Reduced(values(start + k), spare - k));
  }

  lemma ProgressIs(composition: seq<Entry>, values: nat -> nat, start: nat, k: nat)
    requires BandsOpen(composition) && k <= Sum(Spare(composition))
    ensures Progress(composition, values, start, k)
      == After(composition, PicksFrom(values, start, Sum(Spare(composition)), k))
  {
  }

  /** One turn of the draw; nothing is placed once there is no room left. */
  method DrawOne(composition: seq<Entry>, random: RandomStream, drawn: seq<nat>, ghost start: nat, ghost k: nat)
    returns (full: bool, next: seq<nat>)
    requires BandsOpen(composition) && k <= Sum(Spare(composition)) && random.used == start + k
    requires drawn == Progress(composition, random.values, start, k)
    modifies random
    ensures full <==> k == Sum(Spare(composition))
    ensures full ==> random.used == old(random.used) && next == drawn
    ensures !full ==> random.used == old(random.used) + 1 && next == Progress(composition, random.values, start, k + 1)
  {
    hide *;
    ProgressRoom(composition, random.values, start, k);
    next := drawn;
    var total := Capacity(composition, drawn);
    full := total == 0;
    if !full {
      var value := random.Next();
      ProgressOne(composition, random.values, start, k);
      next := PlacePick(composition, drawn, Reduced(value, total));
    }
  }

  method DrawSpawnComposition(composition: seq<Entry>, count: nat, random: RandomStream) returns (drawn: seq<nat>)
    requires BandsOpen(composition)
    modifies random
    ensures drawn == Drawn(composition, count, random.values, old(random.used))
    ensures random.used == old(random.used) + Remainder(composition, count)
  {
    var handedOut;
    drawn, handedOut := AssignFloors(composition);
    ghost var k: nat := 0;
    NothingDealt(composition, random.values, random.used);
    while handedOut < count
      invariant k <= Remainder(composition, count)
      invariant random.used == old(random.used) + k
      invariant drawn == Progress(composition, random.values, old(random.used), k)
      invariant handedOut == Sum(Floors(composition)) + k
      decreases count - handedOut
    {
      hide Progress, Floors, Spare;
      var full;
      full, drawn := DrawOne(composition, random, drawn, old(random.used), k);
      if full {
        break;
      }
      k := k + 1;
      handedOut := handedOut + 1;
    }
    assert k == Remainder(composition, count);
  }

  lemma NothingDealt(composition: seq<Entry>, values: nat -> nat, start: nat)
    requires BandsOpen(composition)
    ensures Progress(composition, values, start, 0) == Floors(composition)
  {
  }

  lemma NextPick(values: nat -> nat, start: nat, total: nat, k: nat)
    requires k < total
    ensures PicksFrom(values, start, total, k + 1)
      == PicksFrom(values, start, total, k) + [Reduced(values(start + k), total - k)]
  {
  }

  /** What is left of the room after some picks, entry by entry and in all. */
  lemma RoomAfter(composition: seq<Entry>, picks: seq<nat>)
    requires BandsOpen(composition) && PicksFit(Sum(Spare(composition)), picks)
    ensures var spare := Spare(composition); var drawn := After(composition, picks);
      && Under(drawn, Ceilings(composition))
      && Room(composition, drawn) == Minus(spare, Deal(spare, picks))
      && Sum(Room(composition, drawn)) == Sum(spare) - |picks|
  {
    var spare := Spare(composition);
    var dealt := Deal(spare, picks);
    hide Deal, PicksFit, Sum;
    SumMinus(spare, dealt);
    RoomIsRest(composition, dealt);
  }

  lemma RoomIsRest(composition: seq<Entry>, dealt: seq<nat>)
    requires BandsOpen(composition) && Under(dealt, Spare(composition))
    ensures var drawn := Plus(Floors(composition), dealt);
      Under(drawn, Ceilings(composition)) && Room(composition, drawn) == Minus(Spare(composition), dealt)
  {
  }

  /** One more pick is one more of the entry it lands in. */
  lemma OnePick(composition: seq<Entry>, picks: seq<nat>, pick: nat)
    requires BandsOpen(composition)
    requires PicksFit(Sum(Spare(composition)), picks) && PicksFit(Sum(Spare(composition)), picks + [pick])
    ensures Under(After(composition, picks), Ceilings(composition))
    ensures pick < Sum(Room(composition, After(composition, picks)))
    ensures After(composition, picks + [pick])
      == Bumped(After(composition, picks), Slot(Room(composition, After(composition, picks)), pick))
  {
    hide Deal, Slot, Sum, PicksFit, Room;
    RoomAfter(composition, picks);
    DealtNext(Spare(composition), picks, pick);
    PlusUpdate(Floors(composition), Deal(Spare(composition), picks),
      Slot(Room(composition, After(composition, picks)), pick));
  }

  function Bumped(s: seq<nat>, e: nat): seq<nat>
    requires e < |s|
  {
    s[e := s[e] + 1]
  }

  lemma DealtNext(spare: seq<nat>, picks: seq<nat>, pick: nat)
    requires PicksFit(Sum(spare), picks) && PicksFit(Sum(spare), picks + [pick])
    ensures pick < Sum(Minus(spare, Deal(spare, picks))) == Sum(spare) - |picks|
    ensures Deal(spare, picks + [pick]) == Bumped(Deal(spare, picks), Slot(Minus(spare, Deal(spare, picks)), pick))
  {
    hide Slot, Sum;
    var all := picks + [pick];
    assert all[..|picks|] == picks && all[|picks|] == pick;
    SumMinus(spare, Deal(spare, picks));
  }

  lemma PlusUpdate(s: seq<nat>, t: seq<nat>, e: nat)
    requires |s| == |t| && e < |s|
    ensures Plus(s, Bumped(t, e)) == Bumped(Plus(s, t), e)
  {
  }

  // ----- the total, and what the validator is for ------------------------------------------------

  function Max(a: int, b: int): int { if a >= b then a else b }

  function Min(a: int, b: int): int { if a <= b then a else b }

  /** Whatever the stream says: floors first, then as much of the count as there is
      room for, and no entry outside its band. */
  lemma TotalLaw(composition: seq<Entry>, count: nat, values: nat -> nat, start: nat)
    requires BandsOpen(composition)
    ensures var drawn := Drawn(composition, count, values, start);
      && Sum(drawn) == Max(Sum(Floors(composition)), Min(count, Sum(Ceilings(composition))))
      && |drawn| == |composition|
      && forall i :: 0 <= i < |composition| ==> composition[i].min <= drawn[i] <= composition[i].max
  {
    hide Deal, PicksFit;
    var spare := Spare(composition);
    var picks := PicksFrom(values, start, Sum(spare), Remainder(composition, count));
    SumPlus(Floors(composition), Deal(spare, picks));
    SumMinus(Ceilings(composition), Floors(composition));
    assert Under(Deal(spare, picks), spare);
  }

  /** The entries' least numbers and their most. */
  predicate Bands(composition: seq<Entry>, least: seq<nat>, most: seq<nat>) {
    && |least| == |most| == |composition|
    && forall i :: 0 <= i < |composition| ==> least[i] == composition[i].min && most[i] == composition[i].max
  }

  lemma BandsAre(composition: seq<Entry>, least: seq<nat>, most: seq<nat>)
    requires Bands(composition, least, most)
    ensures Floors(composition) == least && Ceilings(composition) == most
  {
  }

  /** Every entry in its band, and in all as many as asked for, unless that is fewer than the least numbers come to
      or more than the most do. */
  lemma TotalExactly(composition: seq<Entry>, count: nat, values: nat -> nat, start: nat, least: seq<nat>,
                     most: seq<nat>)
    requires BandsOpen(composition) && Bands(composition, least, most)
    ensures var drawn := Drawn(composition, count, values, start);
      && |drawn| == |composition|
      && (forall i :: 0 <= i < |composition| ==> composition[i].min <= drawn[i] <= composition[i].max)
      && Sum(drawn) == if count < Sum(least) then Sum(least) else if count > Sum(most) then Sum(most) else count
  {
    BandsAre(composition, least, most);
    TotalLaw(composition, count, values, start);
    BandsInOrder(composition, least, most, |composition|);
    assert least[..|least|] == least && most[..|most|] == most;
  }

  lemma {:induction false} BandsInOrder(composition: seq<Entry>, least: seq<nat>, most: seq<nat>, n: nat)
    requires BandsOpen(composition) && Bands(composition, least, most) && n <= |composition|
    ensures Sum(least[..n]) <= Sum(most[..n])
  {
    if n > 0 {
      BandsInOrder(composition, least, most, n - 1);
      SumPrefix(least, n - 1);
      SumPrefix(most, n - 1);
    }
  }

  datatype Verdict = Accepted | NoEntries | NoCounts | EmptyBand(entry: nat) | FloorsTooHigh | CeilingsTooLow

  method ValidateSpawnComposition(composition: seq<Entry>, countMin: nat, countMax: nat) returns (verdict: Verdict)
    ensures verdict == Accepted <==> Valid(composition, countMin, countMax)
    ensures verdict.EmptyBand? ==> verdict.entry < |composition| && BandsOpen(composition[..verdict.entry])
                                   && composition[verdict.entry].max < composition[verdict.entry].min
  {
    if |composition| == 0 {
      return NoEntries;
    }
    if countMin == 0 || countMax < countMin {
      return NoCounts;
    }
    var floorTotal, ceilingTotal := 0, 0;
    for index := 0 to |composition|
      invariant BandsOpen(composition[..index])
      invariant floorTotal == Sum(Floors(composition)[..index]) && ceilingTotal == Sum(Ceilings(composition)[..index])
    {
      var entry := composition[index];
      assert composition[..index + 1] == composition[..index] + [entry];
      if entry.max < entry.min {
        return EmptyBand(index);
      }
      SumPrefix(Floors(composition), index);
      SumPrefix(Ceilings(composition), index);
      floorTotal := floorTotal + entry.min;
      ceilingTotal := ceilingTotal + entry.max;
    }
    assert composition[..|composition|] == composition;
    assert Floors(composition)[..|composition|] == Floors(composition);
    assert Ceilings(composition)[..|composition|] == Ceilings(composition);
    if floorTotal > countMin {
      return FloorsTooHigh;
    }
    if ceilingTotal < countMax {
      return CeilingsTooLow;
    }
    return Accepted;
  }

  predicate Valid(composition: seq<Entry>, countMin: nat, countMax: nat) {
    && composition != [] && 0 < countMin <= countMax && BandsOpen(composition)
    && Sum(Floors(composition)) <= countMin && countMax <= Sum(Ceilings(composition))
  }

  /** Some entries, a range of at least one, no band closed, and the range no lower than the least numbers come to
      and no higher than the most do. */
  lemma ValidExactly(composition: seq<Entry>, countMin: nat, countMax: nat, least: seq<nat>, most: seq<nat>)
    requires Bands(composition, least, most)
    ensures Valid(composition, countMin, countMax) <==>
      && |composition| > 0 && 1 <= countMin <= countMax
      && (forall i :: 0 <= i < |composition| ==> composition[i].min <= composition[i].max)
      && Sum(least) <= countMin && countMax <= Sum(most)
  {
    BandsAre(composition, least, most);
  }

  /** Every size in the range comes out exact, whatever the stream. */
  ghost predicate AlwaysExact(composition: seq<Entry>, countMin: nat, countMax: nat)
    requires BandsOpen(composition)
  {
    forall count: nat, values: nat -> nat, start: nat :: countMin <= count <= countMax ==>
      Sum(Drawn(composition, count, values, start)) == count
  }

  /** The validator accepts exactly the compositions that always come out exact. */
  lemma ValidMeansExact(composition: seq<Entry>, countMin: nat, countMax: nat)
    requires composition != [] && 0 < countMin <= countMax && BandsOpen(composition)
    ensures Valid(composition, countMin, countMax) <==> AlwaysExact(composition, countMin, countMax)
  {
    forall count: nat, values: nat -> nat, start: nat
      ensures Sum(Drawn(composition, count, values, start))
        == Max(Sum(Floors(composition)), Min(count, Sum(Ceilings(composition))))
    {
      TotalLaw(composition, count, values, start);
    }
    if AlwaysExact(composition, countMin, countMax) {
      var values := (n: nat) => 0 as nat;
      assert Sum(Drawn(composition, countMin, values, 0)) == countMin;
      assert Sum(Drawn(composition, countMax, values, 0)) == countMax;
      FloorsUnderCeilings(composition);
    }
  }

  lemma FloorsUnderCeilings(composition: seq<Entry>)
    requires BandsOpen(composition)
    ensures Sum(Floors(composition)) <= Sum(Ceilings(composition))
  {
    SumPointwise(Floors(composition), Ceilings(composition));
  }
}
