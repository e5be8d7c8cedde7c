/** Godot's Vector2 and Vector2I as exact values: floating point is modelled by `real`. */
module Vectors {

  /** A Vector2: a pair of coordinates. */
  datatype Vec2 = Vec2(x: real, y: real)

  /** A Vector2I: a pair of 32-bit signed integers, modelled unbounded. */
  datatype Cell = Cell(x: int, y: int)

  const Zero := Vec2(0.0, 0.0)

  /** int.MaxValue, and the modulus of C#'s `uint`. */
  const IntMax: int := 0x7FFF_FFFF
  const UintModulus: nat := 0x1_0000_0000
  const UintMax: nat := 0xFFFF_FFFF

  function Add(a: Vec2, b: Vec2): Vec2 { Vec2(a.x + b.x, a.y + b.y) }

  function Sub(a: Vec2, b: Vec2): Vec2 { Vec2(a.x - b.x, a.y - b.y) }

  function Scale(a: Vec2, k: real): Vec2 { Vec2(a.x * k, a.y * k) }

  function CellAdd(a: Cell, b: Cell): Cell { Cell(a.x + b.x, a.y + b.y) }

  /** Vector2.LengthSquared. */
  function SqLength(a: Vec2): real { a.x * a.x + a.y * a.y }

  /** Vector2.DistanceSquaredTo. */
  function SqDist(a: Vec2, b: Vec2): real { SqLength(Sub(a, b)) }

  function Abs(x: real): real { if x < 0.0 then -x else x }

  /** Mathf.Sign for a float: -1, 0 or 1. */
  function Sign(x: real): real { if x < 0.0 then -1.0 else if x > 0.0 then 1.0 else 0.0 }

  /** `n` zero vectors: the contents of a freshly allocated Vector2 array. */
  function Zeros(n: nat): (zs: seq<Vec2>)
    ensures |zs| == n && forall k :: 0 <= k < n ==> zs[k] == Zero
  {
    seq(n, _ => Zero)
  }

  /** Signs of real products. */
  lemma MulSigns(a: real, b: real)
    ensures a >= 0.0 && b >= 0.0 ==> a * b >= 0.0
    ensures a > 0.0 && b > 0.0 ==> a * b > 0.0
  {
  }

  /** The squared distance bounds each coordinate's distance: a point strictly
      inside the radius is strictly inside it along each axis. */
  lemma AxisWithinRadius(a: Vec2, b: Vec2, r: real)
    requires r > 0.0 && SqDist(a, b) < r * r
    ensures Abs(a.x - b.x) < r && Abs(a.y - b.y) < r
  {
    var dx, dy := a.x - b.x, a.y - b.y;
    assert SqDist(a, b) == dx * dx + dy * dy;
    assert dx * dx >= 0.0 && dy * dy >= 0.0;
    SquareBelow(dx, r, SqDist(a, b));
    SquareBelow(dy, r, SqDist(a, b));
  }

  /** A number whose square is below r*r is below r in absolute value. */
  lemma SquareBelow(d: real, r: real, bound: real)
    requires r > 0.0 && d * d <= bound < r * r
    ensures Abs(d) < r
  {
    var e := Abs(d);
    assert e * e == d * d;
    assert (e - r) * (e + r) == e * e - r * r;
    assert e + r > 0.0;
  }
}
