/** Vectors in space, and the laws their proofs go by. */
module Vectors {
  import opened Geometry

  function Add(a: Vec3, b: Vec3): Vec3 {
    Vec3(a.x + b.x, a.y + b.y, a.z + b.z)
  }

  function Subtract(a: Vec3, b: Vec3): Vec3 {
    Vec3(a.x - b.x, a.y - b.y, a.z - b.z)
  }

  function Scale(a: Vec3, k: real): Vec3 {
    Vec3(a.x * k, a.y * k, a.z * k)
  }

  function Dot(a: Vec3, b: Vec3): real {
    a.x * b.x + a.y * b.y + a.z * b.z
  }

  const ZERO: Vec3 := Vec3(0.0, 0.0, 0.0)

  lemma DotAdd(a: Vec3, b: Vec3, c: Vec3)
    ensures Dot(Add(a, b), c) == Dot(a, c) + Dot(b, c) && Dot(c, Add(a, b)) == Dot(c, a) + Dot(c, b)
  {
  }

  lemma DotSubtract(a: Vec3, b: Vec3, c: Vec3)
    ensures Dot(Subtract(a, b), c) == Dot(a, c) - Dot(b, c) && Dot(c, Subtract(a, b)) == Dot(c, a) - Dot(c, b)
  {
  }

  lemma DotScale(a: Vec3, k: real, b: Vec3)
    ensures Dot(Scale(a, k), b) == k * Dot(a, b) && Dot(b, Scale(a, k)) == k * Dot(a, b) && Dot(b, a) == Dot(a, b)
  {
    Assoc(a.x, k, b.x);
    Assoc(a.y, k, b.y);
    Assoc(a.z, k, b.z);
    assert k * Dot(a, b) == k * (a.x * b.x) + k * (a.y * b.y) + k * (a.z * b.z);
  }

  lemma Assoc(a: real, k: real, b: real)
    ensures (a * k) * b == k * (a * b) && b * (a * k) == k * (a * b)
  {
  }

  lemma DotSelf(a: Vec3)
    ensures Dot(a, a) >= 0.0 && (Dot(a, a) == 0.0 <==> a == ZERO)
  {
    NonNegative(a.x);
    NonNegative(a.y);
    NonNegative(a.z);
  }

  lemma NonNegative(x: real)
    ensures x * x >= 0.0 && (x * x == 0.0 <==> x == 0.0)
  {
    if x > 0.0 {
      SquareOrder(0.0, x);
    } else if x < 0.0 {
      SquareOrder(0.0, -x);
      assert (-x) * (-x) == x * x;
    }
  }

  lemma ScaleTwice(a: Vec3, j: real, k: real, product: real)
    requires product == j * k
    ensures Scale(Scale(a, j), k) == Scale(a, product)
  {
    Assoc(j, a.x, k);
    Assoc(j, a.y, k);
    Assoc(j, a.z, k);
  }

  lemma ScaleSum(a: Vec3, j: real, k: real, sum: real)
    requires sum == j + k
    ensures Add(Scale(a, j), Scale(a, k)) == Scale(a, sum)
  {
  }

  lemma ScaleAdd(a: Vec3, b: Vec3, k: real)
    ensures Scale(Add(a, b), k) == Add(Scale(a, k), Scale(b, k))
  {
  }
}
