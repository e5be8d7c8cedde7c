/** The row-major spawn grid shared by the CPU initial layout and the GPU
    particle spawner: `numX` columns, `numY = ceil(count / numX)` rows, slot `k`
    in column `k % numX` of row `k / numX`. */
module SpawnGrid {

  /** Mathf.CeilToInt(count / (float)numX) for the exact quotient: the fewest
      rows of `numX` slots that hold `count` slots. */
  function CeilDiv(count: nat, numX: nat): (numY: nat)
    requires numX >= 1
    ensures numY * numX >= count
    ensures numY == 0 || (numY - 1) * numX < count
  {
    (count + numX - 1) / numX
  }

  /** The normalised grid coordinate of column (or row) `x` of `num`: 0.5 for a
      single column, else `x / (num - 1)`. */
  function GridT(x: nat, num: int): (t: real)
    requires x < num
    ensures 0.0 <= t <= 1.0
    ensures num <= 1 ==> t == 0.5
    ensures num > 1 && x == 0 ==> t == 0.0
    ensures num > 1 && x == num - 1 ==> t == 1.0
  {
    if num <= 1 then 0.5
    else
      var d := num as real - 1.0;
      assert x as real / d * d == x as real;
      assert (1.0 - x as real / d) * d == d - x as real;
      x as real / d
  }

  /** Column and row of slot `y * numX + x` are `x` and `y`. */
  lemma RowMajorIndex(y: nat, x: nat, numX: nat)
    requires x < numX
    ensures (y * numX + x) / numX == y && (y * numX + x) % numX == x
  {
    var k := y * numX + x;
    var d := y - k / numX;
    assert d * numX == k % numX - x;
    MulNonnegative(d - 1, numX);
    MulNonnegative(-d - 1, numX);
  }

  /** Slot `k < count` lies in one of the `ceil(count / numX)` rows. */
  lemma RowBelow(count: nat, numX: nat, k: nat)
    requires numX >= 1 && k < count
    ensures k / numX < CeilDiv(count, numX)
  {
    var numY := CeilDiv(count, numX);
    var y := k / numX;
    assert y * numX <= k;
    if y >= numY {
      MulNonnegative(y - numY, numX);
    }
  }

  /** One row holds every slot exactly when the count fits in a row. */
  lemma RowCount(count: nat, numX: nat)
    requires numX >= 1
    ensures count <= numX ==> CeilDiv(count, numX) <= 1
    ensures count > numX ==> CeilDiv(count, numX) >= 2
  {
  }

  /** The smaller of `a` and `b`. */
  function Min(a: int, b: int): int { if a <= b then a else b }

  lemma MulNonnegative(a: int, b: int)
    ensures a >= 0 && b >= 0 ==> a * b >= 0
  {
  }
}
