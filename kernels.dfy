/** The SPH smoothing kernels of the CPU solver. Each kernel reads one of five
    scaling factors that are recomputed whenever the smoothing radius is set;
    here the factor is an explicit argument. Value kernels vanish from
    `dst >= radius` on; derivative kernels only from `dst > radius` on. */
module Kernels {
  import opened Vectors

  /** Mathf.Pi at single precision. */
  const Pi: real := 3.1415927

  /** Mathf.Pow for a natural exponent. */
  function Pow(x: real, n: nat): (p: real)
    ensures x > 0.0 ==> p > 0.0
    ensures x >= 0.0 ==> p >= 0.0
  {
    if n == 0 then 1.0
    else
      MulSigns(x, Pow(x, n - 1));
      x * Pow(x, n - 1)
  }

  /** The five scaling factors held beside the smoothing radius. */
  datatype ScalingFactors = ScalingFactors(
    smoothPoly6: real,
    spikyPow2: real,
    spikyPow3: real,
    spikyPow2Derivative: real,
    spikyPow3Derivative: real)

  /** The factors the SmoothingRadius setter computes. A radius of zero is a
      division by zero (an infinity at float precision). */
  function ScalingFactorsFor(radius: real): (f: ScalingFactors)
    requires radius != 0.0
    ensures radius > 0.0 ==>
      f.smoothPoly6 > 0.0 && f.spikyPow2 > 0.0 && f.spikyPow3 > 0.0 &&
      f.spikyPow2Derivative > 0.0 && f.spikyPow3Derivative > 0.0
    ensures f.spikyPow2Derivative == 2.0 * f.spikyPow2
    ensures f.spikyPow3Derivative == 3.0 * f.spikyPow3
  {
    PowNonzero(radius, 4);
    PowNonzero(radius, 5);
    PowNonzero(radius, 8);
    ScalingFactors(
      4.0 / (Pi * Pow(radius, 8)),
      6.0 / (Pi * Pow(radius, 4)),
      10.0 / (Pi * Pow(radius, 5)),
      12.0 / (Pi * Pow(radius, 4)),
      30.0 / (Pi * Pow(radius, 5)))
  }

  lemma {:induction false} PowNonzero(x: real, n: nat)
    requires x != 0.0
    ensures Pow(x, n) != 0.0
  {
    if n > 0 {
      PowNonzero(x, n - 1);
    }
  }

  lemma PowTwo(x: real)
    ensures Pow(x, 2) == x * x
  {
    assert Pow(x, 1) == x * Pow(x, 0);
    assert Pow(x, 2) == x * Pow(x, 1);
  }

  lemma PowThree(x: real)
    ensures Pow(x, 3) == x * x * x
  {
    PowTwo(x);
    assert Pow(x, 3) == x * Pow(x, 2);
  }

  /** A distance inside the radius leaves a positive `radius² - dst²`. */
  lemma SquaresOrdered(dst: real, radius: real)
    ensures 0.0 <= dst < radius ==> radius * radius - dst * dst > 0.0
  {
    var a, b := radius - dst, radius + dst;
    MulSigns(a, b);
    assert a * b == radius * radius - dst * dst;
  }

  function SmoothPoly6Kernel(dst: real, radius: real, scale: real): (w: real)
    ensures dst >= radius ==> w == 0.0
    ensures 0.0 <= dst < radius && scale >= 0.0 ==> w >= 0.0
    ensures 0.0 <= dst < radius && scale > 0.0 ==> w > 0.0
  {
    if dst < radius then
      var v := radius * radius - dst * dst;
      SquaresOrdered(dst, radius);
      MulSigns(Pow(v, 3), scale);
      Pow(v, 3) * scale
    else 0.0
  }

  function SpikyPow2Kernel(dst: real, radius: real, scale: real): (w: real)
    ensures dst >= radius ==> w == 0.0
    ensures dst < radius && scale >= 0.0 ==> w >= 0.0
    ensures dst < radius && scale > 0.0 ==> w > 0.0
  {
    if dst < radius then
      var v := radius - dst;
      MulSigns(Pow(v, 2), scale);
      Pow(v, 2) * scale
    else 0.0
  }

  function SpikyPow3Kernel(dst: real, radius: real, scale: real): (w: real)
    ensures dst >= radius ==> w == 0.0
    ensures dst < radius && scale >= 0.0 ==> w >= 0.0
    ensures dst < radius && scale > 0.0 ==> w > 0.0
  {
    if dst < radius then
      var v := radius - dst;
      MulSigns(Pow(v, 3), scale);
      Pow(v, 3) * scale
    else 0.0
  }

  function SpikyPow2Derivative(dst: real, radius: real, scale: real): (w: real)
    ensures dst > radius ==> w == 0.0
    ensures dst == radius ==> w == 0.0
    ensures dst <= radius && scale >= 0.0 ==> w <= 0.0
    ensures dst < radius && scale > 0.0 ==> w < 0.0
  {
    if dst <= radius then
      var v := radius - dst;
      MulSigns(v, scale);
      -v * scale
    else 0.0
  }

  function SpikyPow3Derivative(dst: real, radius: real, scale: real): (w: real)
    ensures dst > radius ==> w == 0.0
    ensures dst == radius ==> w == 0.0
    ensures dst <= radius && scale >= 0.0 ==> w <= 0.0
    ensures dst < radius && scale > 0.0 ==> w < 0.0
  {
    if dst <= radius then
      var v := radius - dst;
      MulSigns(Pow(v, 2), scale);
      -Pow(v, 2) * scale
    else 0.0
  }

  /** SpikyPow2Derivative, with the factor the setter pairs with it, is the
      exact slope of SpikyPow2Kernel: moving `h` further out changes the kernel
      by `h` times the derivative plus the quadratic remainder. */
  lemma SpikyPow2DerivativeIsSlope(dst: real, h: real, radius: real)
    requires radius > 0.0 && dst < radius && dst + h < radius
    ensures var f := ScalingFactorsFor(radius);
      SpikyPow2Kernel(dst + h, radius, f.spikyPow2) - SpikyPow2Kernel(dst, radius, f.spikyPow2)
      == h * SpikyPow2Derivative(dst, radius, f.spikyPow2Derivative) + f.spikyPow2 * h * h
  {
    var f := ScalingFactorsFor(radius);
    var c, v := f.spikyPow2, radius - dst;
    PowTwo(v - h);
    PowTwo(v);
    assert (v - h) * (v - h) * c - v * v * c == h * (-v * (2.0 * c)) + c * h * h;
  }

  /** The same for SpikyPow3Derivative and SpikyPow3Kernel, with the cubic
      remainder. */
  lemma SpikyPow3DerivativeIsSlope(dst: real, h: real, radius: real)
    requires radius > 0.0 && dst < radius && dst + h < radius
    ensures var f := ScalingFactorsFor(radius);
      SpikyPow3Kernel(dst + h, radius, f.spikyPow3) - SpikyPow3Kernel(dst, radius, f.spikyPow3)
      == h * SpikyPow3Derivative(dst, radius, f.spikyPow3Derivative) + f.spikyPow3 * h * h * (3.0 * (radius - dst) - h)
  {
    var f := ScalingFactorsFor(radius);
    var c, v := f.spikyPow3, radius - dst;
    PowThree(v - h);
    PowThree(v);
    PowTwo(v);
    assert (v - h) * (v - h) * (v - h) == v * v * v - 3.0 * v * v * h + 3.0 * v * h * h - h * h * h;
    assert (v - h) * (v - h) * (v - h) * c - v * v * v * c == h * (-v * v * (3.0 * c)) + c * h * h * (3.0 * v - h);
  }

  /** Nearer neighbours weigh at least as much: the density kernel does not
      increase with distance. */
  lemma SpikyPow2Decreasing(d1: real, d2: real, radius: real, scale: real)
    requires d1 <= d2 && scale >= 0.0
    ensures SpikyPow2Kernel(d2, radius, scale) <= SpikyPow2Kernel(d1, radius, scale)
  {
    if d2 < radius {
      PowMonotone(radius - d2, radius - d1, 2);
      ScaledLe(Pow(radius - d2, 2), Pow(radius - d1, 2), scale);
      calc {
        SpikyPow2Kernel(d2, radius, scale);
        Pow(radius - d2, 2) * scale;
      <= Pow(radius - d1, 2) * scale;
        SpikyPow2Kernel(d1, radius, scale);
      }
    }
  }

  /** Pow grows with a non-negative base. */
  lemma {:induction false} PowMonotone(x: real, y: real, n: nat)
    requires 0.0 <= x <= y
    ensures Pow(x, n) <= Pow(y, n)
  {
    if n > 0 {
      PowMonotone(x, y, n - 1);
      ScaledLe(x, y, Pow(x, n - 1));
      ScaledLe(Pow(x, n - 1), Pow(y, n - 1), y);
      calc {
        Pow(x, n);
        x * Pow(x, n - 1);
      <= y * Pow(x, n - 1);
      <= y * Pow(y, n - 1);
        Pow(y, n);
      }
    }
  }

  /** Multiplying by a non-negative factor keeps the order. */
  lemma ScaledLe(a: real, b: real, c: real)
    requires a <= b && c >= 0.0
    ensures a * c <= b * c && c * a <= c * b
  {
    MulSigns(b - a, c);
    assert (b - a) * c == b * c - a * c;
  }
}
