/** What the height-map tool's output is, byte by byte, by the wording of the formats alone:
    section 6 of RFC 2083 for the rows, the NKGM layout for the file. */
module PngFormat {
  import opened PngUnfilter
  import opened GroundMap

  /** How far a prediction is from what left, above and upper left extrapolate to. */
  function Off(x: int, left: int, above: int, corner: int): int {
    if x >= left + above - corner then x - (left + above - corner) else left + above - corner - x
  }

  /** The neighbour nearest to left + above - upper left; of equals the left one, then the
      one above. */
  ghost predicate Nearest(x: int, left: int, above: int, corner: int) {
    && (x == left || x == above || x == corner)
    && (forall n :: n == left || n == above || n == corner ==>
          Off(x, left, above, corner) <= Off(n, left, above, corner))
    && (Off(left, left, above, corner) == Off(x, left, above, corner) ==> x == left)
    && (Off(above, left, above, corner) == Off(x, left, above, corner) && x != left ==> x == above)
  }

  /** A byte by its filter type, from what it was filtered to and its neighbours. */
  ghost predicate Unfiltered(filter: int, y: int, x: int, left: int, above: int, corner: int) {
    && 0 <= y < 256
    && (filter == 1 ==> y == (x + left) % 256)
    && (filter == 2 ==> y == (x + above) % 256)
    && (filter == 3 ==> y == (x + (left + above) / 2) % 256)
    && (filter == 4 ==> exists n :: Nearest(n, left, above, corner) && y == (x + n) % 256)
    && (filter < 1 || filter > 4 ==> y == x)
  }

  lemma ByteUnfiltered(filter: int, x: int, left: int, above: int, corner: int)
    requires 0 <= x < 256
    ensures Unfiltered(filter, (x + Predict(filter, left, above, corner)) % 256, x, left, above, corner)
  {
    if filter == 4 {
      assert Nearest(Predict(filter, left, above, corner), left, above, corner);
    }
  }

  lemma {:induction false} RowByte(filter: int, line: seq<int>, prev: seq<int>, n: nat, i: nat)
    requires |prev| == |line| && i < n <= |line| && Bytes(line)
    ensures var row := Rebuilt(filter, line, prev, n);
      Unfiltered(filter, row[i], line[i], if i >= 2 then row[i - 2] else 0, prev[i], if i >= 2 then prev[i - 2] else 0)
  {
    hide Unfiltered, Predict;
    var before := Rebuilt(filter, line, prev, n - 1);
    if i < n - 1 {
      RowByte(filter, line, prev, n - 1, i);
    } else {
      ByteUnfiltered(filter, line[i], if i >= 2 then before[i - 2] else 0, prev[i], if i >= 2 then prev[i - 2] else 0);
    }
  }

  /** A row is what its line of the stream unfilters to under the row above. */
  ghost predicate RowRight(filter: int, line: seq<int>, row: seq<int>, above: seq<int>) {
    && |row| == |above| == |line|
    && forall i :: 0 <= i < |row| ==> ByteRight(filter, line, row, above, i)
  }

  ghost predicate ByteRight(filter: int, line: seq<int>, row: seq<int>, above: seq<int>, i: int)
    requires 0 <= i < |row| && |row| == |above| == |line|
  {
    Unfiltered(filter, row[i], line[i], if i >= 2 then row[i - 2] else 0,
               above[i], if i >= 2 then above[i - 2] else 0)
  }

  lemma RowIsRight(filter: int, line: seq<int>, prev: seq<int>)
    requires |line| == |prev| && Bytes(line)
    ensures RowRight(filter, line, UnfilterRow(filter, line, prev), prev)
  {
    hide Unfiltered, Predict, Rebuilt;
    forall i | 0 <= i < |line| ensures ByteRight(filter, line, UnfilterRow(filter, line, prev), prev, i) {
      RowByte(filter, line, prev, |prev|, i);
    }
  }

  /** The row whose filter type is at `q` of the stream. */
  ghost predicate RowAtRight(raw: seq<int>, q: nat, row: seq<int>, above: seq<int>) {
    q + |row| < |raw| && RowRight(raw[q], raw[q + 1..q + 1 + |row|], row, above)
  }

  /** The rows as the stream has them, one on. */
  lemma DecodeSplit(h: nat, raw: seq<int>, prev: seq<int>)
    requires h > 0 && |raw| >= Span(h, 1 + |prev|) && Bytes(raw)
    ensures |raw| > |prev| && Span(0, 1 + |prev|) == 0
    ensures var row, rest := UnfilterRow(raw[0], raw[1..1 + |prev|], prev), raw[1 + |prev|..];
      && Bytes(rest) && Bytes(raw[1..1 + |prev|]) && |row| == |prev| && |rest| >= Span(h - 1, 1 + |row|)
      && Decode(h, raw, prev) == [row] + Decode(h - 1, rest, row)
  {
    hide UnfilterRow;
  }

  lemma SpanOn(y: nat, width: nat)
    requires y > 0
    ensures Span(y, width) == Span(y - 1, width) + width
  {
  }

  lemma {:induction false} RowsRight(h: nat, raw: seq<int>, prev: seq<int>, y: nat)
    requires |raw| >= Span(h, 1 + |prev|) && Bytes(raw) && y < h
    ensures var rows := Decode(h, raw, prev);
      |rows| == h && RowAtRight(raw, Span(y, 1 + |prev|), rows[y], if y > 0 then rows[y - 1] else prev)
    decreases h
  {
    hide *;
    DecodeSplit(h, raw, prev);
    var row, rest := UnfilterRow(raw[0], raw[1..1 + |prev|], prev), raw[1 + |prev|..];
    if y == 0 {
      RowIsRight(raw[0], raw[1..1 + |prev|], prev);
      FirstRight(raw, row, prev);
    } else {
      var rows := Decode(h - 1, rest, row);
      RowsRight(h - 1, rest, row, y - 1);
      SpanOn(y, 1 + |prev|);
      Shifted(raw, 1 + |prev|, Span(y - 1, 1 + |prev|), rows[y - 1], if y > 1 then rows[y - 2] else row);
    }
  }

  lemma FirstRight(raw: seq<int>, row: seq<int>, above: seq<int>)
    requires |row| < |raw| && RowRight(raw[0], raw[1..1 + |row|], row, above)
    ensures RowAtRight(raw, 0, row, above)
  {
    hide RowRight;
  }

  lemma Shifted(raw: seq<int>, k: nat, q: nat, row: seq<int>, above: seq<int>)
    requires k <= |raw| && RowAtRight(raw[k..], q, row, above)
    ensures RowAtRight(raw, q + k, row, above)
  {
    hide RowRight;
    assert raw[k..][q] == raw[q + k];
    assert raw[k..][q + 1..q + 1 + |row|] == raw[q + k + 1..q + k + 1 + |row|];
  }

  /** The rows of a picture, from its inflated stream. */
  function Rows(w: nat, h: nat, raw: seq<int>): (rows: seq<seq<int>>)
    requires |raw| >= Span(h, 1 + 2 * w)
    ensures |rows| == h && forall y :: 0 <= y < h ==> |rows[y]| == 2 * w
  {
    var rows := Decode(h, raw, NoRow(2 * w));
    assert forall y :: 0 <= y < h ==> rows[y] in rows;
    rows
  }

  /** Every byte of every row read: from its byte of the stream, the filter type its row
      starts with, and the bytes two to the left and one above, zero off the picture. */
  lemma DecodedByte(w: nat, h: nat, raw: seq<int>, y: nat, i: nat)
    requires |raw| >= Span(h, 1 + 2 * w) && Bytes(raw) && y < h && i < 2 * w
    ensures y * (1 + 2 * w) + 1 + i < |raw|
    ensures var rows := Rows(w, h, raw);
      Unfiltered(raw[y * (1 + 2 * w)], rows[y][i], raw[y * (1 + 2 * w) + 1 + i],
                    if i >= 2 then rows[y][i - 2] else 0,
                    if y > 0 then rows[y - 1][i] else 0,
                    if i >= 2 && y > 0 then rows[y - 1][i - 2] else 0)
  {
    SpanIsProduct(y, 1 + 2 * w);
    hide *;
    DecodedAt(w, h, raw, y, i);
  }

  lemma DecodedAt(w: nat, h: nat, raw: seq<int>, y: nat, i: nat)
    requires |raw| >= Span(h, 1 + 2 * w) && Bytes(raw) && y < h && i < 2 * w
    ensures Span(y, 1 + 2 * w) + 1 + i < |raw|
    ensures var rows, q := Rows(w, h, raw), Span(y, 1 + 2 * w);
      Unfiltered(raw[q], rows[y][i], raw[q + 1 + i],
                    if i >= 2 then rows[y][i - 2] else 0,
                    if y > 0 then rows[y - 1][i] else 0,
                    if i >= 2 && y > 0 then rows[y - 1][i - 2] else 0)
  {
    RowsRight(h, raw, NoRow(2 * w), y);
    Blank(2 * w, i);
    var rows := Rows(w, h, raw);
    hide *;
    ByteOf(raw, Span(y, 1 + 2 * w), rows[y], if y > 0 then rows[y - 1] else NoRow(2 * w), i);
  }

  lemma Blank(stride: nat, i: nat)
    requires i < stride
    ensures NoRow(stride)[i] == 0 && (i >= 2 ==> NoRow(stride)[i - 2] == 0)
  {
  }

  lemma ByteOf(raw: seq<int>, q: nat, row: seq<int>, above: seq<int>, i: nat)
    requires RowAtRight(raw, q, row, above) && i < |row|
    ensures |above| == |row| && q + 1 + i < |raw|
    ensures Unfiltered(raw[q], row[i], raw[q + 1 + i], if i >= 2 then row[i - 2] else 0,
                       above[i], if i >= 2 then above[i - 2] else 0)
  {
    hide Unfiltered;
    assert ByteRight(raw[q], raw[q + 1..q + 1 + |row|], row, above, i);
  }

  // ----- the file ---------------------------------------------------------------------------

  /** The layout: a magic number, version 1 and no flags, the two sizes, 1200 mm and a zero. */
  ghost predicate Laid(w: nat, h: nat, out: seq<int>) {
    && |out| == 24 + 2 * (w * h) && Bytes(out)
    && out[0] == 'N' as int && out[1] == 'K' as int && out[2] == 'G' as int && out[3] == 'M' as int
    && out[4] == 1 && out[5] == 0 && out[6] == 0 && out[7] == 0
    && Number32(out, 8, w) && Number32(out, 12, h) && Number32(out, 16, 1200) && Number32(out, 20, 0)
  }

  /** Four bytes, the lowest first. */
  predicate Number32(out: seq<int>, i: nat, value: nat) {
    i + 3 < |out| && out[i] + 256 * (out[i + 1] + 256 * (out[i + 2] + 256 * out[i + 3])) == value
  }

  lemma FileLaid(w: nat, h: nat, raw: seq<int>, out: seq<int>)
    requires IsCooked(w, h, raw, out)
    ensures Laid(w, h, out)
  {
    SpanIsProduct(h, 2 * w);
    Doubled(w, h);
    HeaderLaid(w, h);
    hide Header, Stored, Span, Image, Number32;
    SameStart(out, Header(w, h), w, h);
  }

  lemma SameStart(out: seq<int>, header: seq<int>, w: nat, h: nat)
    requires |out| >= 24 == |header| && out[..24] == header
    requires Number32(header, 8, w) && Number32(header, 12, h) && Number32(header, 16, 1200) && Number32(header, 20, 0)
    ensures forall k :: 0 <= k < 24 ==> out[k] == header[k]
    ensures Number32(out, 8, w) && Number32(out, 12, h) && Number32(out, 16, 1200) && Number32(out, 20, 0)
  {
    forall k | 0 <= k < 24 ensures out[k] == header[k] {
      assert out[..24][k] == out[k];
    }
  }

  lemma Doubled(w: nat, h: nat)
    ensures h * (2 * w) == 2 * (w * h)
  {
  }

  lemma HeaderLaid(w: nat, h: nat)
    requires w < 0x1_0000_0000 && h < 0x1_0000_0000
    ensures var out := Header(w, h);
      && |out| == 24
      && out[0] == 'N' as int && out[1] == 'K' as int && out[2] == 'G' as int && out[3] == 'M' as int
      && out[4] == 1 && out[5] == 0 && out[6] == 0 && out[7] == 0
      && Number32(out, 8, w) && Number32(out, 12, h) && Number32(out, 16, 1200) && Number32(out, 20, 0)
  {
    InBytes(w);
    InBytes(h);
  }

  lemma InBytes(value: nat)
    requires value < 0x1_0000_0000
    ensures var b := Packed32(value); b[0] + 256 * (b[1] + 256 * (b[2] + 256 * b[3])) == value
  {
    assert value / 256 / 256 == value / 65536 && value / 65536 / 256 == value / 16777216;
  }

  lemma PlaceIs(w: nat, h: nat, y: nat, x: nat)
    requires y < h
    ensures 24 <= Place(w, h, y, x) == 24 + 2 * (w * (h - 1 - y) + x)
  {
    SpanIsProduct(h - 1 - y, 2 * w);
    Doubled(w, h - 1 - y);
  }

  /** Where the file has a sample: rows from the last of the picture to the first, its low
      byte ahead of its high one. */
  lemma SampleLaid(w: nat, h: nat, raw: seq<int>, out: seq<int>, y: nat, x: nat)
    requires IsCooked(w, h, raw, out) && y < h && x < w
    ensures var rows, at := Rows(w, h, raw), 24 + 2 * (w * (h - 1 - y) + x);
      && 24 <= at && at + 1 < |out|
      && out[at] == rows[y][2 * x + 1] && out[at + 1] == rows[y][2 * x]
  {
    hide *;
    PlaceIs(w, h, y, x);
    BytesAt(w, h, raw, out, y, x);
  }

  lemma BytesAt(w: nat, h: nat, raw: seq<int>, out: seq<int>, y: nat, x: nat)
    requires IsCooked(w, h, raw, out) && y < h && x < w
    ensures var rows, at := Rows(w, h, raw), Place(w, h, y, x);
      && at + 1 < |out|
      && out[at] == rows[y][2 * x + 1] && out[at + 1] == rows[y][2 * x]
  {
    CookedShape(w, h, raw, out, y);
    hide *;
    Stands(w, h, raw, out, y, x);
    StoredSplits(out, Place(w, h, y, x), Rows(w, h, raw)[y], x);
  }

  lemma CookedShape(w: nat, h: nat, raw: seq<int>, out: seq<int>, y: nat)
    requires IsCooked(w, h, raw, out) && y < h
    ensures Bytes(out) && Bytes(Rows(w, h, raw)[y])
  {
    hide Decode;
    DecodedBytes(h, raw, NoRow(2 * w), y);
  }

  lemma StoredSplits(out: seq<int>, at: nat, row: seq<int>, x: nat)
    requires 2 * x + 1 < |row| && Bytes(row) && StoredAt(out, at, row[2 * x] * 256 + row[2 * x + 1])
    ensures at + 1 < |out| && out[at] == row[2 * x + 1] && out[at + 1] == row[2 * x]
  {
    TwoBytes(out[at], out[at + 1], row[2 * x], row[2 * x + 1]);
  }

  lemma Stands(w: nat, h: nat, raw: seq<int>, out: seq<int>, y: nat, x: nat)
    requires IsCooked(w, h, raw, out) && y < h && x < w
    ensures var rows := Rows(w, h, raw);
      StoredAt(out, Place(w, h, y, x), rows[y][2 * x] * 256 + rows[y][2 * x + 1])
  {
    hide Decode, NoRow, Header, AllSamples, Span, Place, StoredAt, Bytes;
    ImageShape(w, h, raw);
    assert Rows(w, h, raw) == Decode(h, raw, NoRow(2 * w));
    SampleAt(w, Decode(h, raw, NoRow(2 * w)), y, x);
    assert StoredAt(out, Place(w, h, y, x), Image(w, h, raw)[y][x]);
  }

  lemma TwoBytes(low: int, high: int, a: int, b: int)
    requires 0 <= low < 256 && 0 <= b < 256 && low + high * 256 == a * 256 + b
    ensures low == b && high == a
  {
  }

  // ----- what the server makes of it -------------------------------------------------------------

  /** The server has the sample at column `x` of the row as far from the top as this one is
      from the bottom. */
  predicate ReadAs(w: nat, h: nat, out: seq<int>, y: nat, x: nat, row: seq<int>)
    requires y < h && x < w && |row| == 2 * w
  {
    var at := 24 + 2 * (w * (h - 1 - y) + x);
    0 <= at && at + 2 <= |out| && Le16(out, at) == row[2 * x] * 256 + row[2 * x + 1]
  }

  lemma SampleRead(w: nat, h: nat, raw: seq<int>, out: seq<int>, y: nat, x: nat, row: seq<int>)
    requires IsCooked(w, h, raw, out) && y < h && x < w
    requires row == Rows(w, h, raw)[y]
    ensures ReadAs(w, h, out, y, x, row)
  {
    hide IsCooked, Rows;
    SampleLaid(w, h, raw, out, y, x);
  }

  lemma GrayExactly(w: nat, h: nat, out: seq<int>)
    requires Laid(w, h, out)
    ensures IsGray(out) <==> SizeFits(w) && SizeFits(h)
    ensures |out| >= 24 && Le32(out, 8) == w && Le32(out, 12) == h
  {
    assert out[..4] == MAGIC;
  }

  /** The server takes a cooked picture if and only if both of its sides fit, and then has
      every sample at full depth, rows turned round, however they were filtered. */
  lemma ServerReads(w: nat, h: nat, rows: seq<seq<int>>, filters: seq<int>, out: seq<int>)
    requires |rows| == |filters| == h && forall r :: r in rows ==> |r| == 2 * w && Bytes(r)
    requires IsCooked(w, h, Encode(rows, filters, NoRow(2 * w)), out)
    ensures IsGray(out) <==> SizeFits(w) && SizeFits(h)
    ensures |out| >= 24 && Le32(out, 8) == w && Le32(out, 12) == h
    ensures forall y: nat, x: nat :: y < h && x < w ==> |rows[y]| == 2 * w && ReadAs(w, h, out, y, x, rows[y])
  {
    hide *;
    var raw := Encode(rows, filters, NoRow(2 * w));
    FileLaid(w, h, raw, out);
    GrayExactly(w, h, out);
    RowsBack(w, h, rows, filters);
    forall y: nat, x: nat | y < h && x < w ensures |rows[y]| == 2 * w && ReadAs(w, h, out, y, x, rows[y]) {
      assert rows[y] in rows;
      SampleRead(w, h, raw, out, y, x, rows[y]);
    }
  }

  lemma RowsBack(w: nat, h: nat, rows: seq<seq<int>>, filters: seq<int>)
    requires |rows| == |filters| == h && forall r :: r in rows ==> |r| == 2 * w && Bytes(r)
    ensures |Encode(rows, filters, NoRow(2 * w))| >= Span(h, 1 + 2 * w)
    ensures Rows(w, h, Encode(rows, filters, NoRow(2 * w))) == rows
  {
    hide Decode, Encode, Span, Bytes;
    var raw := Encode(rows, filters, NoRow(2 * w));
    assert raw + [] == raw;
    RoundTrip(rows, filters, NoRow(2 * w), []);
  }
}
