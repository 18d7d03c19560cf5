/** The server's reading of a ground height map. */
module GroundMap {
  import opened PngUnfilter

  datatype Map = Map(samplesX: nat, samplesZ: nat, gray: seq<Word>)

  /** A file of terrace levels goes to another reader, which is not part of this model. */
  datatype Parsed = Gray(ground: Map) | Levels | Malformed

  const MAX_SAMPLES: nat := 16384
  const GRID_MM: nat := 12000
  const SPACING_MM: nat := 1200

  function Le16(b: seq<Byte>, i: nat): int
    requires i + 2 <= |b|
  {
    b[i] + b[i + 1] * 0x100
  }

  function Le32(b: seq<Byte>, i: nat): int
    requires i + 4 <= |b|
  {
    b[i] + b[i + 1] * 0x100 + b[i + 2] * 0x1_0000 + b[i + 3] * 0x100_0000
  }

  /** What the sizes must be: at least two samples each way, no more than the most, and whole
      grid squares between the edges. */
  predicate SizeFits(samples: int) {
    2 <= samples <= 16384 && (samples - 1) % 10 == 0
  }

  predicate IsGray(b: seq<Byte>) {
    && |b| >= 24 && b[..4] == MAGIC && Le16(b, 4) == 1 && Le32(b, 20) == 0
    && Le32(b, 16) == 1200 && SizeFits(Le32(b, 8)) && SizeFits(Le32(b, 12))
    && |b| == 24 + 2 * (Le32(b, 8) * Le32(b, 12))
  }

  method ReadHeader(b: seq<Byte>) returns (read: bool, a: nat, z: nat, spacing: nat)
    requires Bytes(b)
    ensures read <==> |b| >= 24 && b[..4] == MAGIC && Le16(b, 4) == 1 && Le32(b, 20) == 0
    ensures read ==> a == Le32(b, 8) && z == Le32(b, 12) && spacing == Le32(b, 16)
  {
    read, a, z, spacing := false, 0, 0, 0;
    if |b| < HEADER || b[..4] != MAGIC {
      return;
    }
    if Le16(b, 4) != VERSION {
      return;
    }
    a, z, spacing := Le32(b, 8), Le32(b, 12), Le32(b, 16);
    if Le32(b, 20) != 0 {
      return;
    }
    read := true;
  }

  /** The samples in the order of the file, and when there is no map. */
  method ParseGroundMap(b: seq<Byte>) returns (r: Parsed)
    requires Bytes(b)
    ensures r.Gray? <==> IsGray(b)
    ensures r.Levels? <==> |b| >= 4 && b[..4] == [78, 75, 71, 76]
    ensures r.Gray? ==>
      && r.ground.samplesX == Le32(b, 8) && r.ground.samplesZ == Le32(b, 12)
      && |r.ground.gray| == r.ground.samplesX * r.ground.samplesZ
      && forall k :: 0 <= k < |r.ground.gray| ==> r.ground.gray[k] == Le16(b, 24 + 2 * k)
  {
    if |b| >= 4 && b[..4] == [78, 75, 71, 76] {
      assert b[3] == b[..4][3];
      return Levels;
    }
    var read, x, z, spacing := ReadHeader(b);
    if !read || spacing != SPACING_MM {
      return Malformed;
    }
    if x < 2 || z < 2 || x > MAX_SAMPLES || z > MAX_SAMPLES {
      return Malformed;
    }
    if (x - 1) % (GRID_MM / SPACING_MM) != 0 || (z - 1) % (GRID_MM / SPACING_MM) != 0 {
      return Malformed;
    }
    var n := x * z;
    if |b| != HEADER + 2 * n {
      return Malformed;
    }
    var gray: seq<Word> := [];
    for k := 0 to n
      invariant |gray| == k
      invariant forall i :: 0 <= i < k ==> gray[i] == Le16(b, 24 + 2 * i)
    {
      gray := gray + [Le16(b, HEADER + 2 * k)];
    }
    return Gray(Map(x, z, gray));
  }
}
