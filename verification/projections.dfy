/**
 * The projection each constraint computes, as a function of the buffer's contents.
 * The in-place methods (module InPlace) are proved to overwrite the buffer with
 * exactly this value; the properties of the value are proved in module Optimality.
 */
module Projections {
  import opened Wrappers
  import opened Vectors
  import opened ConstraintSets
  import opened WaterFilling

  /** Raise x to the lower bound if below it, then lower it to the upper bound if above it. */
  function Clip(x: real, lo: Option<real>, hi: Option<real>): real
  {
    var y := if lo.Some? && x < lo.value then lo.value else x;
    if hi.Some? && y > hi.value then hi.value else y
  }

  /** Rectangle: clip every coordinate into its bounds. */
  function RectangleProj(xmin: Option<Bounds>, xmax: Option<Bounds>, x: seq<real>): (p: seq<real>)
    ensures |p| == |x|
    ensures forall i :: 0 <= i < |x| ==> p[i] == Clip(x[i], LowerAt(xmin, i), UpperAt(xmax, i))
  {
    seq(|x|, i requires 0 <= i < |x| => Clip(x[i], LowerAt(xmin, i), UpperAt(xmax, i)))
  }

  /** BallInf: clip every offset x_i - c_i into [-r, r] and add the center back. */
  function BallInfProj(c: seq<real>, r: real, x: seq<real>): (p: seq<real>)
    requires |c| == |x|
    ensures |p| == |x|
    ensures forall i :: 0 <= i < |x| ==> p[i] == c[i] + Clip(x[i] - c[i], Some(-r), Some(r))
  {
    seq(|x|, i requires 0 <= i < |x| => c[i] + Clip(x[i] - c[i], Some(-r), Some(r)))
  }

  /** The multiple of the normal that a hyperplane projection removes from x. */
  function Step(a: seq<real>, b: real, x: seq<real>): real
    requires |a| == |x| && NonZero(a)
  {
    NormSqPositive(a);
    (Dot(a, x) - b) / NormSq(a)
  }

  /** Hyperplane: x - (<a, x> - b) / |a|^2 * a. */
  function HyperplaneProj(a: seq<real>, b: real, x: seq<real>): (p: seq<real>)
    requires |a| == |x| && NonZero(a)
    ensures |p| == |x|
  {
    Sub(x, Scale(Step(a, b, x), a))
  }

  /** Simplex: soft-threshold x at the water-filling level. */
  function SimplexProj(x: seq<real>, alpha: real): (p: seq<real>)
    requires |x| > 0 && alpha > 0.0
    ensures |p| == |x|
  {
    PosPart(x, SimplexThreshold(x, alpha))
  }

  /** Give each magnitude q_i the sign of x_i. */
  function SignRestore(x: seq<real>, q: seq<real>): (p: seq<real>)
    requires |x| == |q|
    ensures |p| == |x|
    ensures forall i :: 0 <= i < |x| ==> p[i] == (if x[i] < 0.0 then -q[i] else q[i])
  {
    seq(|x|, i requires 0 <= i < |x| => if x[i] < 0.0 then -q[i] else q[i])
  }

  /**
   * Ball1 centered at the origin: a point inside is kept; otherwise the magnitudes
   * |x_i| are projected onto the simplex of size r and the signs restored.
   */
  function Ball1AtOrigin(x: seq<real>, r: real): (p: seq<real>)
    requires r > 0.0
    ensures |p| == |x|
  {
    if Norm1(x) <= r then x
    else SignRestore(x, SimplexProj(AbsAll(x), r))
  }

  /**
   * Index of the listed point nearest to x, the first one among equally near
   * points: a later point replaces the best so far only when strictly nearer.
   */
  function NearestIndex(points: seq<seq<real>>, x: seq<real>): (j: nat)
    requires |points| > 0 && SameLength(points, |x|)
    ensures j < |points|
    ensures forall k :: 0 <= k < |points| ==> SqDist(x, points[j]) <= SqDist(x, points[k])
    ensures forall k :: 0 <= k < j ==> SqDist(x, points[k]) > SqDist(x, points[j])
  {
    NearestAmong(points, x, |points|)
  }

  /** NearestIndex restricted to the first n listed points. */
  function NearestAmong(points: seq<seq<real>>, x: seq<real>, n: nat): (j: nat)
    requires 0 < n <= |points| && SameLength(points, |x|)
    ensures j < n
    ensures forall k :: 0 <= k < n ==> SqDist(x, points[j]) <= SqDist(x, points[k])
    ensures forall k :: 0 <= k < j ==> SqDist(x, points[k]) > SqDist(x, points[j])
  {
    if n == 1 then 0
    else
      var j := NearestAmong(points, x, n - 1);
      if SqDist(x, points[n - 1]) < SqDist(x, points[j]) then n - 1 else j
  }

  /** The projection of x onto the set c describes. */
  function Proj(c: Constraint, x: seq<real>): (p: seq<real>)
    requires WellFormed(c) && Fits(c, |x|)
    ensures |p| == |x|
  {
    match c
    case Zero => Zeros(|x|)
    case NoConstraints => x
    case Hyperplane(a, b) => HyperplaneProj(a, b, x)
    case Halfspace(a, b) =>
      if Dot(a, x) > b then ZeroNormalDot(a, x); HyperplaneProj(a, b, x) else x
    case Rectangle(xmin, xmax) => RectangleProj(xmin, xmax, x)
    case BallInf(center, r) => BallInfProj(CenterOf(center, |x|), r, x)
    case Ball1(center, r) =>
      var cx := CenterOf(center, |x|);
      Add(Ball1AtOrigin(Sub(x, cx), r), cx)
    case Simplex(alpha) => SimplexProj(x, alpha)
    case FiniteSet(points) => points[NearestIndex(points, x)]
  }
}
