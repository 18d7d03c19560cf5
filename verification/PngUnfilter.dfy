/** Cooking a ground height map: the PNG row filters of section 6 of RFC 2083 undone in
    place, and the samples written out little-endian with the rows turned round. */
module PngUnfilter {

  /** What a stream or a row holds, one number a byte; `Bytes` where the range matters. */
  type Byte = int

  type Word = int

  predicate Bytes(s: seq<Byte>) {
    forall i :: 0 <= i < |s| ==> 0 <= s[i] < 256
  }

  datatype Result<+T> = Success(value: T) | Failure

  const BPP: nat := 2

  function Abs(x: int): nat {
    if x < 0 then -x else x
  }

  /** Ties go to the left, then to the row above. */
  function Paeth(a: Byte, b: Byte, c: Byte): Byte {
    var p := a + b - c;
    if Abs(p - a) <= Abs(p - b) && Abs(p - a) <= Abs(p - c) then a
    else if Abs(p - b) <= Abs(p - c) then b
    else c
  }

  /** What each filter type predicts; a type it does not know predicts nothing. */
  function Predict(filter: Byte, a: Byte, b: Byte, c: Byte): Byte {
    match filter
    case 1 => a
    case 2 => b
    case 3 => (a + b) / 2
    case 4 => Paeth(a, b, c)
    case _ => 0
  }

  function Left(line: seq<Byte>, i: nat): Byte
    requires i <= |line|
  {
    if i >= BPP then line[i - BPP] else 0
  }

  // ----- what a filter writes -------------------------------------------------------------

  function FilterRow(filter: Byte, line: seq<Byte>, prev: seq<Byte>): (r: seq<Byte>)
    requires |prev| == |line|
    ensures |r| == |line|
  {
    seq(|line|, i requires 0 <= i < |line| =>
      (line[i] - Predict(filter, Left(line, i), prev[i], Left(prev, i))) % 256)
  }

  /** The filtered rows, each behind its filter type, as they lie in the stream. */
  function Encode(rows: seq<seq<Byte>>, filters: seq<Byte>, prev: seq<Byte>): seq<Byte>
    requires |filters| == |rows| && forall r :: r in rows ==> |r| == |prev|
  {
    if rows == [] then []
    else [filters[0]] + FilterRow(filters[0], rows[0], prev) + Encode(rows[1..], filters[1..], rows[0])
  }

  // ----- what the reader makes of it ---------------------------------------------------------

  /** The first `n` bytes of a row, each rebuilt from those before it. */
  function Rebuilt(filter: Byte, line: seq<Byte>, prev: seq<Byte>, n: nat): (r: seq<Byte>)
    requires |prev| == |line| && n <= |line|
    ensures |r| == n
  {
    if n == 0 then []
    else
      var before := Rebuilt(filter, line, prev, n - 1);
      before + [(line[n - 1] + Predict(filter, Left(before, n - 1), prev[n - 1], Left(prev, n - 1))) % 256]
  }

  function UnfilterRow(filter: Byte, line: seq<Byte>, prev: seq<Byte>): (r: seq<Byte>)
    requires |prev| == |line|
    ensures |r| == |line|
  {
    Rebuilt(filter, line, prev, |line|)
  }

  function Decode(h: nat, raw: seq<Byte>, prev: seq<Byte>): (rows: seq<seq<Byte>>)
    requires |raw| >= Span(h, 1 + |prev|)
    ensures |rows| == h && forall r :: r in rows ==> |r| == |prev|
  {
    if h == 0 then []
    else
      var row := UnfilterRow(raw[0], raw[1..1 + |prev|], prev);
      [row] + Decode(h - 1, raw[1 + |prev|..], row)
  }

  /** `n` times `width`, counted up. */
  function Span(n: nat, width: nat): nat {
    if n == 0 then 0 else Span(n - 1, width) + width
  }

  lemma {:induction false} SpanIsProduct(n: nat, width: nat)
    ensures Span(n, width) == n * width
  {
    if n > 0 {
      SpanIsProduct(n - 1, width);
      assert (n - 1) * width + width == n * width;
    }
  }

  lemma {:induction false} SpanSplit(m: nat, n: nat, width: nat)
    requires m <= n
    ensures Span(m, width) + Span(n - m, width) == Span(n, width)
  {
    if m < n {
      SpanSplit(m, n - 1, width);
    }
  }

  function Sample(row: seq<Byte>, x: nat): Word
    requires 2 * x + 1 < |row|
  {
    (row[2 * x]) * 256 + row[2 * x + 1]
  }

  function SamplesOf(w: nat, row: seq<Byte>): (s: seq<Word>)
    requires |row| == 2 * w
    ensures |s| == w
  {
    seq(w, x requires 0 <= x < w => Sample(row, x))
  }

  function AllSamples(w: nat, rows: seq<seq<Byte>>): (s: seq<seq<Word>>)
    requires forall r :: r in rows ==> |r| == 2 * w
    ensures |s| == |rows| && forall r :: r in s ==> |r| == w
  {
    seq(|rows|, y requires 0 <= y < |rows| => SamplesOf(w, rows[y]))
  }

  function NoRow(stride: nat): (r: seq<Byte>)
    ensures |r| == stride
  {
    seq(stride, _ => 0)
  }

  // ----- the reader -----------------------------------------------------------------------------

  method RebuildByte(filter: Byte, x: Byte, a: Byte, b: Byte, c: Byte) returns (y: Byte)
    requires 0 <= x < 256
    ensures y == (x + Predict(filter, a, b, c)) % 256
  {
    y := x;
    if filter == 1 {
      y := (x + a) % 256;
    } else if filter == 2 {
      y := (x + b) % 256;
    } else if filter == 3 {
      y := (x + (a + b) / 2) % 256;
    } else if filter == 4 {
      y := (x + Paeth(a, b, c)) % 256;
    }
  }

  /** One row rebuilt where it lies, from itself and the row above. */
  method UnfilterInPlace(filter: Byte, line: array<Byte>, prev: seq<Byte>)
    requires line.Length == |prev| && Bytes(line[..])
    modifies line
    ensures line[..] == UnfilterRow(filter, old(line[..]), prev)
  {
    hide Predict;
    ghost var filtered := line[..];
    for i := 0 to line.Length
      invariant line[..i] == Rebuilt(filter, filtered, prev, i)
      invariant line[i..] == filtered[i..]
    {
      ghost var done := line[..i];
      var a: Byte := if i >= BPP then line[i - BPP] else 0;
      var b := prev[i];
      var c: Byte := if i >= BPP then prev[i - BPP] else 0;
      assert a == Left(done, i) && c == Left(prev, i);
      assert line[i] == filtered[i];
      var rebuilt := RebuildByte(filter, line[i], a, b, c);
      assert Rebuilt(filter, filtered, prev, i + 1) == done + [rebuilt];
      line[i] := rebuilt;
      assert line[..i + 1] == done + [rebuilt];
    }
    assert line[..line.Length] == line[..];
  }

  function RowAt(raw: seq<Byte>, q: nat, prev: seq<Byte>): (row: seq<Byte>)
    requires q + 1 + |prev| <= |raw|
    ensures |row| == |prev|
  {
    UnfilterRow(raw[q], raw[q + 1..q + 1 + |prev|], prev)
  }

  /** The row at `q`, rebuilt against the one above it. */
  method ReadRow(raw: seq<Byte>, q: nat, prev: seq<Byte>) returns (row: seq<Byte>)
    requires q + 1 + |prev| <= |raw| && Bytes(raw)
    ensures row == RowAt(raw, q, prev)
  {
    var line := new Byte[|prev|](i requires 0 <= i < |prev| => raw[q + 1 + i]);
    assert line[..] == raw[q + 1..q + 1 + |prev|];
    UnfilterInPlace(raw[q], line, prev);
    row := line[..];
  }

  function Image(w: nat, h: nat, raw: seq<Byte>): (rows: seq<seq<Word>>)
    requires |raw| >= Span(h, 1 + 2 * w)
  {
    AllSamples(w, Decode(h, raw, NoRow(2 * w)))
  }

  lemma ImageShape(w: nat, h: nat, raw: seq<Byte>)
    requires |raw| >= Span(h, 1 + 2 * w)
    ensures |Image(w, h, raw)| == h && forall r :: r in Image(w, h, raw) ==> |r| == w
  {
    hide Decode;
  }

  /** All `h` rows; a stream too short for them fails, bytes past them are ignored. */
  method ReadRows(w: nat, h: nat, raw: seq<Byte>) returns (read: bool, rows: seq<seq<Word>>)
    requires Bytes(raw)
    ensures read <==> |raw| >= Span(h, 1 + 2 * w)
    ensures read ==> rows == Image(w, h, raw)
  {
    var prev := NoRow(2 * w);
    rows := [];
    var q: nat := 0;
    StartReading(w, h, raw);
    hide *;
    for y := 0 to h
      invariant Reading(w, h, raw, y, q, prev, rows)
    {
      var more: bool;
      more, q, prev, rows := ReadNext(w, h, raw, y, q, prev, rows);
      if !more {
        return false, [];
      }
    }
    StopReading(w, h, raw, q, prev, rows);
    return true, rows;
  }

  /** Reads one more row, if the stream still holds all of it. */
  method ReadNext(w: nat, ghost h: nat, raw: seq<Byte>, ghost y: nat, q: nat, prev: seq<Byte>, rows: seq<seq<Word>>)
    returns (more: bool, q': nat, row: seq<Byte>, rows': seq<seq<Word>>)
    requires Reading(w, h, raw, y, q, prev, rows) && y < h && Bytes(raw)
    ensures !more ==> |raw| < Span(h, 1 + 2 * w)
    ensures more ==> Reading(w, h, raw, y + 1, q', row, rows')
  {
    hide *;
    more, row := FindRow(w, h, raw, y, q, prev, rows);
    q', rows' := q + 1 + 2 * w, rows;
    if more {
      ReadOn(w, h, raw, y, q, prev, rows, row);
      rows' := With(rows, SamplesOf(w, row));
    }
  }

  method FindRow(w: nat, ghost h: nat, raw: seq<Byte>, ghost y: nat, q: nat, prev: seq<Byte>,
                  ghost rows: seq<seq<Word>>) returns (more: bool, row: seq<Byte>)
    requires Reading(w, h, raw, y, q, prev, rows) && y < h && Bytes(raw)
    ensures !more ==> |raw| < Span(h, 1 + 2 * w)
    ensures more ==> |prev| == 2 * w && q + 1 + |prev| <= |raw| && row == RowAt(raw, q, prev)
  {
    RowAhead(w, h, raw, y, q, prev, rows);
    hide *;
    if |raw| < q + 1 + 2 * w {
      return false, prev;
    }
    row := ReadRow(raw, q, prev);
    return true, row;
  }

  function With<T>(s: seq<T>, x: T): (r: seq<T>) {
    s + [x]
  }

  /** `y` rows are read, as the samples `rows`; the stream stands at `q`, and what is
      still in it makes up the rest of the picture. */
  ghost predicate Reading(w: nat, h: nat, raw: seq<Byte>, y: nat, q: nat, prev: seq<Byte>, rows: seq<seq<Word>>) {
    && |prev| == 2 * w && y <= h
    && q == Span(y, 1 + 2 * w) <= |raw|
    && (|raw| >= Span(h, 1 + 2 * w) ==>
          && |raw[q..]| >= Span(h - y, 1 + 2 * w)
          && Image(w, h, raw) == rows + AllSamples(w, Decode(h - y, raw[q..], prev)))
  }

  lemma StartReading(w: nat, h: nat, raw: seq<Byte>)
    ensures Reading(w, h, raw, 0, 0, NoRow(2 * w), [])
  {
    assert raw[0..] == raw;
  }

  lemma RowAhead(w: nat, h: nat, raw: seq<Byte>, y: nat, q: nat, prev: seq<Byte>, rows: seq<seq<Word>>)
    requires Reading(w, h, raw, y, q, prev, rows) && y < h
    ensures |prev| == 2 * w
    ensures |raw| < q + 1 + 2 * w ==> |raw| < Span(h, 1 + 2 * w)
  {
    SpanStep(y, h, 1 + 2 * w);
  }

  lemma ReadOn(w: nat, h: nat, raw: seq<Byte>, y: nat, q: nat, prev: seq<Byte>, rows: seq<seq<Word>>, row: seq<Byte>)
    requires Reading(w, h, raw, y, q, prev, rows) && y < h
    requires q + 1 + |prev| <= |raw| && row == RowAt(raw, q, prev) && |row| == 2 * w
    ensures Reading(w, h, raw, y + 1, q + 1 + 2 * w, row, With(rows, SamplesOf(w, row)))
  {
    hide RowAt, AllSamples, SamplesOf, Image, Decode;
    SpanStep(y, h, 1 + 2 * w);
    SpanSplit(y + 1, h, 1 + 2 * w);
    if |raw| >= Span(h, 1 + 2 * w) {
      DecodeNext(h - y, raw, q, prev);
      var rest := Decode(h - y - 1, raw[q + 1 + 2 * w..], row);
      SamplesFirst(w, row, rest);
    }
  }

  lemma StopReading(w: nat, h: nat, raw: seq<Byte>, q: nat, prev: seq<Byte>, rows: seq<seq<Word>>)
    requires Reading(w, h, raw, h, q, prev, rows)
    ensures |raw| >= Span(h, 1 + 2 * w) && rows == Image(w, h, raw)
  {
  }

  lemma SpanStep(y: nat, h: nat, width: nat)
    requires y < h
    ensures Span(y + 1, width) == Span(y, width) + width <= Span(h, width)
  {
    SpanSplit(y + 1, h, width);
  }

  lemma SamplesFirst(w: nat, line: seq<Byte>, lines: seq<seq<Byte>>)
    requires (forall l :: l in lines ==> |l| == 2 * w) && |line| == 2 * w
    ensures AllSamples(w, [line] + lines) == [SamplesOf(w, line)] + AllSamples(w, lines)
  {
  }

  lemma DecodeNext(h: nat, raw: seq<Byte>, q: nat, prev: seq<Byte>)
    requires h > 0 && q + 1 + |prev| <= |raw| && |raw[q..]| >= Span(h, 1 + |prev|)
    ensures var row := RowAt(raw, q, prev);
      Decode(h, raw[q..], prev) == [row] + Decode(h - 1, raw[q + 1 + |prev|..], row)
  {
    hide UnfilterRow;
    var rest := raw[q..];
    assert rest[0] == raw[q] && rest[1..1 + |prev|] == raw[q + 1..q + 1 + |prev|];
    assert rest[1 + |prev|..] == raw[q + 1 + |prev|..];
  }

  // ----- unfiltering undoes filtering ---------------------------------------------------------------

  lemma {:induction false} RebuiltUndoesFilter(filter: Byte, line: seq<Byte>, prev: seq<Byte>, n: nat)
    requires |prev| == |line| && n <= |line| && Bytes(line)
    ensures Rebuilt(filter, FilterRow(filter, line, prev), prev, n) == line[..n]
  {
    hide Predict, FilterRow, Left;
    if n > 0 {
      RebuiltUndoesFilter(filter, line, prev, n - 1);
      var i := n - 1;
      FilteredAt(filter, line, prev, i);
      SameLeft(line, i);
      AddBack(line[i], Predict(filter, Left(line, i), prev[i], Left(prev, i)));
      assert line[..n] == line[..i] + [line[i]];
    }
  }

  lemma FilteredAt(filter: Byte, line: seq<Byte>, prev: seq<Byte>, i: nat)
    requires |prev| == |line| && i < |line|
    ensures FilterRow(filter, line, prev)[i] == (line[i] - Predict(filter, Left(line, i), prev[i], Left(prev, i))) % 256
  {
    hide Predict, Left;
  }

  lemma SameLeft(line: seq<Byte>, i: nat)
    requires i <= |line|
    ensures Left(line[..i], i) == Left(line, i)
  {
  }

  lemma AddBack(x: Byte, predicted: Byte)
    requires 0 <= x < 256
    ensures (((x - predicted) % 256) + predicted) % 256 == x
  {
  }

  lemma {:induction false} EncodeSize(rows: seq<seq<Byte>>, filters: seq<Byte>, prev: seq<Byte>)
    requires |filters| == |rows| && forall r :: r in rows ==> |r| == |prev|
    ensures |Encode(rows, filters, prev)| == Span(|rows|, 1 + |prev|)
  {
    if rows != [] {
      assert rows[0] in rows && forall r :: r in rows[1..] ==> r in rows;
      EncodeSize(rows[1..], filters[1..], rows[0]);
    }
  }

  lemma DecodeFirst(h: nat, filter: Byte, line: seq<Byte>, rest: seq<Byte>, prev: seq<Byte>)
    requires h > 0 && |line| == |prev| && |rest| >= Span(h - 1, 1 + |prev|)
    ensures |[filter] + line + rest| >= Span(h, 1 + |prev|)
    ensures var row := UnfilterRow(filter, line, prev);
      Decode(h, [filter] + line + rest, prev) == [row] + Decode(h - 1, rest, row)
  {
    hide UnfilterRow;
    var raw := [filter] + line + rest;
    assert raw[1..1 + |prev|] == line && raw[1 + |prev|..] == rest;
  }

  lemma DecodeNothing(raw: seq<Byte>, prev: seq<Byte>)
    ensures Span(0, 1 + |prev|) == 0 && Decode(0, raw, prev) == []
  {
  }

  /** Whatever filter each row was written with, the reader gets the rows back, and
      what follows them in the stream does not matter. */
  lemma {:induction false} RoundTrip(rows: seq<seq<Byte>>, filters: seq<Byte>, prev: seq<Byte>, extra: seq<Byte>)
    requires |filters| == |rows| && forall r :: r in rows ==> |r| == |prev| && Bytes(r)
    ensures |Encode(rows, filters, prev) + extra| >= Span(|rows|, 1 + |prev|)
    ensures Decode(|rows|, Encode(rows, filters, prev) + extra, prev) == rows
  {
    hide *;
    EncodeSize(rows, filters, prev);
    if rows == [] {
      DecodeNothing(Encode(rows, filters, prev) + extra, prev);
    } else {
      var row, rest := rows[0], rows[1..];
      assert row in rows && forall r :: r in rest ==> r in rows;
      var filtered, tail := FilterRow(filters[0], row, prev), Encode(rest, filters[1..], row);
      EncodeFirst(rows, filters, prev, extra);
      RoundTrip(rest, filters[1..], row, extra);
      RowRoundTrip(filters[0], row, prev);
      DecodeFirst(|rows|, filters[0], filtered, tail + extra, prev);
      assert rows == [row] + rest;
    }
  }

  lemma EncodeIs(rows: seq<seq<Byte>>, filters: seq<Byte>, prev: seq<Byte>)
    requires |filters| == |rows| > 0 && forall r :: r in rows ==> |r| == |prev|
    requires rows[0] in rows && forall r :: r in rows[1..] ==> r in rows
    ensures Encode(rows, filters, prev) ==
      [filters[0]] + FilterRow(filters[0], rows[0], prev) + Encode(rows[1..], filters[1..], rows[0])
  {
    hide FilterRow;
  }

  lemma Rebracketed(a: seq<Byte>, b: seq<Byte>, c: seq<Byte>)
    ensures a + b + c == a + (b + c)
  {
  }

  lemma EncodeFirst(rows: seq<seq<Byte>>, filters: seq<Byte>, prev: seq<Byte>, extra: seq<Byte>)
    requires |filters| == |rows| > 0 && forall r :: r in rows ==> |r| == |prev|
    ensures rows[0] in rows && forall r :: r in rows[1..] ==> r in rows
    ensures Encode(rows, filters, prev) + extra ==
      [filters[0]] + FilterRow(filters[0], rows[0], prev) + (Encode(rows[1..], filters[1..], rows[0]) + extra)
  {
    assert rows[0] in rows && forall r :: r in rows[1..] ==> r in rows;
    EncodeIs(rows, filters, prev);
    hide *;
    Rebracketed([filters[0]] + FilterRow(filters[0], rows[0], prev), Encode(rows[1..], filters[1..], rows[0]), extra);
  }

  lemma RowRoundTrip(filter: Byte, row: seq<Byte>, prev: seq<Byte>)
    requires |prev| == |row| && Bytes(row)
    ensures UnfilterRow(filter, FilterRow(filter, row, prev), prev) == row
  {
    RebuiltUndoesFilter(filter, row, prev, |row|);
    assert row[..|row|] == row;
  }

  // ----- the output -----------------------------------------------------------------------------------

  function Packed(value: Word): (r: seq<Byte>)
    ensures |r| == 2
  {
    [value % 256, value / 256]
  }

  function Packed32(value: nat): (r: seq<Byte>)
    requires value < 0x1_0000_0000
    ensures |r| == 4
  {
    [value % 256, value / 256 % 256, value / 65536 % 256, value / 16777216]
  }

  function PackedRow(row: seq<Word>): (r: seq<Byte>)
    ensures |r| == 2 * |row|
  {
    if row == [] then [] else PackedRow(row[..|row| - 1]) + Packed(row[|row| - 1])
  }

  const MAGIC: seq<Byte> := [78, 75, 71, 77]
  const VERSION: Word := 1
  const MILLIMETRES: nat := 1200
  const HEADER: nat := 24

  function Header(w: nat, h: nat): (r: seq<Byte>)
    requires w < 0x1_0000_0000 && h < 0x1_0000_0000
    ensures |r| == HEADER
  {
    MAGIC + Packed(VERSION) + Packed(0) + Packed32(w) + Packed32(h) + Packed32(MILLIMETRES) + Packed32(0)
  }

  /** Where the sample at row `y`, column `x` of the picture lands: rows turned round. */
  function Place(w: nat, h: nat, y: nat, x: nat): nat
    requires y < h
  {
    HEADER + Span(h - 1 - y, 2 * w) + 2 * x
  }

  ghost predicate StoredAt(out: seq<Byte>, i: nat, sample: Word) {
    i + 1 < |out| && 0 <= out[i] < 256 && out[i] + out[i + 1] * 256 == sample
  }

  /** The last `done` rows of the picture are in place. */
  ghost predicate Stored(out: seq<Byte>, w: nat, h: nat, rows: seq<seq<Word>>, done: nat)
    requires |rows| == h && done <= h && forall r :: r in rows ==> |r| == w
  {
    forall y, x :: h - done <= y < h && 0 <= x < w ==> StoredAt(out, Place(w, h, y, x), rows[y][x])
  }

  method WriteNkgm(w: nat, h: nat, rows: seq<seq<Word>>) returns (out: seq<Byte>)
    requires w < 0x1_0000_0000 && h < 0x1_0000_0000
    requires |rows| == h && (forall r :: r in rows ==> |r| == w) && AllWords(rows)
    ensures |out| == HEADER + Span(h, 2 * w) && out[..HEADER] == Header(w, h) && Bytes(out)
    ensures Stored(out, w, h, rows, h)
  {
    hide StoredAt, AllWords;
    out := Header(w, h);
    hide Header;
    for done := 0 to h
      invariant |out| == HEADER + Span(done, 2 * w) && out[..HEADER] == Header(w, h) && Bytes(out)
      invariant Stored(out, w, h, rows, done)
    {
      var row := rows[h - 1 - done];
      assert row in rows;
      StoredNext(out, w, h, rows, done);
      PackedBytes(rows, h - 1 - done);
      out := out + PackedRow(row);
    }
  }

  lemma StoredNext(out: seq<Byte>, w: nat, h: nat, rows: seq<seq<Word>>, done: nat)
    requires |rows| == h && done < h && forall r :: r in rows ==> |r| == w
    requires |out| == HEADER + Span(done, 2 * w) && Stored(out, w, h, rows, done)
    ensures Stored(out + PackedRow(rows[h - 1 - done]), w, h, rows, done + 1)
  {
    var y := h - 1 - done;
    assert rows[y] in rows;
    var grown := out + PackedRow(rows[y]);
    forall v, x | y <= v < h && 0 <= x < w ensures StoredAt(grown, Place(w, h, v, x), rows[v][x]) {
      if v == y {
        PackedRowAt(rows[y], x);
      } else {
        assert StoredAt(out, Place(w, h, v, x), rows[v][x]);
      }
    }
  }

  predicate Words(row: seq<Word>) {
    forall i :: 0 <= i < |row| ==> 0 <= row[i] < 0x1_0000
  }

  predicate AllWords(rows: seq<seq<Word>>) {
    forall i :: 0 <= i < |rows| ==> Words(rows[i])
  }

  lemma PackedBytes(rows: seq<seq<Word>>, y: nat)
    requires y < |rows| && AllWords(rows)
    ensures Bytes(PackedRow(rows[y]))
  {
    PackedRowBytes(rows[y]);
  }

  lemma {:induction false} PackedRowBytes(row: seq<Word>)
    requires Words(row)
    ensures Bytes(PackedRow(row))
  {
    if row != [] {
      PackedRowBytes(row[..|row| - 1]);
    }
  }

  lemma {:induction false} PackedRowAt(row: seq<Word>, x: nat)
    requires x < |row|
    ensures StoredAt(PackedRow(row), 2 * x, row[x])
  {
    if x < |row| - 1 {
      PackedRowAt(row[..|row| - 1], x);
    }
  }

  lemma {:induction false} DecodedBytes(h: nat, raw: seq<Byte>, prev: seq<Byte>, y: nat)
    requires |raw| >= Span(h, 1 + |prev|) && y < h
    ensures Bytes(Decode(h, raw, prev)[y])
  {
    var row, rest := UnfilterRow(raw[0], raw[1..1 + |prev|], prev), raw[1 + |prev|..];
    if y == 0 {
      RebuiltBytes(raw[0], raw[1..1 + |prev|], prev, |prev|);
    } else {
      hide UnfilterRow;
      DecodedBytes(h - 1, rest, row, y - 1);
    }
  }

  lemma {:induction false} RebuiltBytes(filter: Byte, line: seq<Byte>, prev: seq<Byte>, n: nat)
    requires |prev| == |line| && n <= |line|
    ensures Bytes(Rebuilt(filter, line, prev, n))
  {
    hide Predict;
    if n > 0 {
      RebuiltBytes(filter, line, prev, n - 1);
    }
  }

  lemma ImageWords(w: nat, h: nat, raw: seq<Byte>)
    requires |raw| >= Span(h, 1 + 2 * w)
    ensures AllWords(Image(w, h, raw))
  {
    hide Decode, Span, NoRow;
    var rows := Decode(h, raw, NoRow(2 * w));
    forall y | 0 <= y < |rows| ensures Words(AllSamples(w, rows)[y]) {
      assert rows[y] in rows;
      DecodedBytes(h, raw, NoRow(2 * w), y);
    }
  }

  /** The whole tool, from the inflated stream to the file. */
  method Cook(w: nat, h: nat, raw: seq<Byte>) returns (r: Result<seq<Byte>>)
    requires w < 0x1_0000_0000 && h < 0x1_0000_0000 && Bytes(raw)
    ensures r.Failure? <==> |raw| < Span(h, 1 + 2 * w)
    ensures r.Success? ==> IsCooked(w, h, raw, r.value)
  {
    hide Stored, Header, Decode;
    var read, rows := ReadRows(w, h, raw);
    if !read {
      return Failure;
    }
    ImageShape(w, h, raw);
    ImageWords(w, h, raw);
    var out := WriteNkgm(w, h, rows);
    return Success(out);
  }

  ghost predicate IsCooked(w: nat, h: nat, raw: seq<Byte>, out: seq<Byte>) {
    && w < 0x1_0000_0000 && h < 0x1_0000_0000 && |raw| >= Span(h, 1 + 2 * w)
    && |out| == HEADER + Span(h, 2 * w) && out[..HEADER] == Header(w, h) && Bytes(out)
    && (ImageShape(w, h, raw); Stored(out, w, h, Image(w, h, raw), h))
  }

  /** What the filters write are bytes again, so long as their types are. */
  lemma {:induction false} EncodeBytes(rows: seq<seq<Byte>>, filters: seq<Byte>, prev: seq<Byte>)
    requires |filters| == |rows| && (forall r :: r in rows ==> |r| == |prev|) && Bytes(filters)
    ensures Bytes(Encode(rows, filters, prev))
  {
    hide Predict;
    if rows != [] {
      assert rows[0] in rows && forall r :: r in rows[1..] ==> r in rows;
      EncodeBytes(rows[1..], filters[1..], rows[0]);
      var head, tail := [filters[0]] + FilterRow(filters[0], rows[0], prev), Encode(rows[1..], filters[1..], rows[0]);
      assert Encode(rows, filters, prev) == head + tail;
      BytesOf(head, tail);
    }
  }

  lemma BytesOf(s: seq<Byte>, t: seq<Byte>)
    requires Bytes(s) && Bytes(t)
    ensures Bytes(s + t)
  {
  }

  /** End to end: however the picture's rows were filtered, the tool takes the stream and does
      not fail on it, and the file holds the two bytes of every sample, swapped, at the
      mirrored row. */
  lemma CookedMap(w: nat, h: nat, rows: seq<seq<Byte>>, filters: seq<Byte>, out: seq<Byte>)
    requires |rows| == |filters| == h && (forall r :: r in rows ==> |r| == 2 * w && Bytes(r)) && Bytes(filters)
    ensures var raw := Encode(rows, filters, NoRow(2 * w));
      && Bytes(raw) && |raw| >= Span(h, 1 + 2 * w)
      && (IsCooked(w, h, raw, out) ==> SwappedAndTurned(w, h, rows, out))
  {
    hide Decode, Encode, NoRow, Header, AllSamples, Span, Place, Bytes, IsCooked, SwappedAndTurned;
    EncodeBytes(rows, filters, NoRow(2 * w));
    EncodeSize(rows, filters, NoRow(2 * w));
    if IsCooked(w, h, Encode(rows, filters, NoRow(2 * w)), out) {
      FileHolds(w, h, rows, filters, out);
    }
  }

  lemma FileHolds(w: nat, h: nat, rows: seq<seq<Byte>>, filters: seq<Byte>, out: seq<Byte>)
    requires |rows| == |filters| == h && forall r :: r in rows ==> |r| == 2 * w && Bytes(r)
    requires IsCooked(w, h, Encode(rows, filters, NoRow(2 * w)), out)
    ensures SwappedAndTurned(w, h, rows, out)
  {
    hide IsCooked, Encode, Place;
    forall y, x | 0 <= y < h && 0 <= x < w
      ensures rows[y] in rows && SwappedAt(out, Place(w, h, y, x), rows[y], x)
    {
      CookedAt(w, h, rows, filters, out, y, x);
    }
  }

  /** Every sample's low byte and then its high one, the last row of the picture first. */
  ghost predicate SwappedAndTurned(w: nat, h: nat, rows: seq<seq<Byte>>, out: seq<Byte>)
    requires |rows| == h && forall r :: r in rows ==> |r| == 2 * w
  {
    forall y, x :: 0 <= y < h && 0 <= x < w ==> rows[y] in rows && SwappedAt(out, Place(w, h, y, x), rows[y], x)
  }

  predicate SwappedAt(out: seq<Byte>, i: nat, row: seq<Byte>, x: nat)
    requires 2 * x + 1 < |row|
  {
    i + 1 < |out| && out[i] == row[2 * x + 1] && out[i + 1] == row[2 * x]
  }

  lemma CookedAt(w: nat, h: nat, rows: seq<seq<Byte>>, filters: seq<Byte>, out: seq<Byte>, y: nat, x: nat)
    requires |rows| == |filters| == h && forall r :: r in rows ==> |r| == 2 * w && Bytes(r)
    requires IsCooked(w, h, Encode(rows, filters, NoRow(2 * w)), out)
    requires y < h && x < w
    ensures rows[y] in rows && |rows[y]| == 2 * w && SwappedAt(out, Place(w, h, y, x), rows[y], x)
  {
    hide Decode, Encode, NoRow, Header, AllSamples, Span, Place;
    ImageShape(w, h, Encode(rows, filters, NoRow(2 * w)));
    var raw := Encode(rows, filters, NoRow(2 * w));
    assert Decode(h, raw, NoRow(2 * w)) == rows by {
      RoundTrip(rows, filters, NoRow(2 * w), []);
      assert raw + [] == raw;
    }
    assert StoredAt(out, Place(w, h, y, x), AllSamples(w, rows)[y][x]);
    SampleAt(w, rows, y, x);
  }

  lemma SampleAt(w: nat, rows: seq<seq<Byte>>, y: nat, x: nat)
    requires (forall r :: r in rows ==> |r| == 2 * w) && y < |rows| && x < w
    ensures rows[y] in rows && |rows[y]| == 2 * w
    ensures AllSamples(w, rows)[y][x] == rows[y][2 * x] * 256 + rows[y][2 * x + 1]
  {
    assert rows[y] in rows;
  }
}
