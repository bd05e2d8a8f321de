/**
 * The catalogue of constraint sets, their validating constructors, the sets they
 * describe (membership) and what each reports about its own convexity.
 *
 * A constraint is an immutable descriptor built once by a constructor that refuses
 * bad parameters; projection (module Projections) needs only a descriptor that
 * passed that validation and a buffer of the right length.
 */
module ConstraintSets {
  import opened Wrappers
  import opened Vectors

  /** Why a constructor refused its parameters (the library panics in these cases). */
  datatype Error =
    | EmptyData          // a finite set with no points
    | DimensionMismatch  // points, or the two bound vectors, of different lengths
    | NonPositive        // a radius or a simplex size that is not > 0
    | ZeroNormal         // an all-zero normal: any hyperplane, or a halfspace with offset < 0
    | EmptyBox           // a rectangle with xmin_i > xmax_i in some coordinate

  /**
   * An optional bound per coordinate: None stands for an infinite bound
   * (NEG_INFINITY for xmin, INFINITY for xmax), i.e. no clamp on that side.
   */
  type Bounds = seq<Option<real>>

  datatype Constraint =
    | Zero                                                      // {0}
    | NoConstraints                                             // the whole space
    | Hyperplane(normal: seq<real>, offset: real)               // <a, x> == b
    | Halfspace(normal: seq<real>, offset: real)                // <a, x> <= b
    | Rectangle(xmin: Option<Bounds>, xmax: Option<Bounds>)     // xmin <= x <= xmax
    | BallInf(center: Option<seq<real>>, radius: real)          // |x - c|_inf <= r
    | Ball1(center: Option<seq<real>>, radius: real)            // |x - c|_1 <= r
    | Simplex(alpha: real)                                      // x >= 0, sum(x) == alpha
    | FiniteSet(points: seq<seq<real>>)                         // one of the listed points

  // ---------------------------------------------------------------------------
  // Validation

  /** Every listed point has length n. */
  predicate SameLength(points: seq<seq<real>>, n: nat)
  {
    forall k :: 0 <= k < |points| ==> |points[k]| == n
  }

  /** The lower bound of a rectangle in coordinate i (None when infinite or absent). */
  function LowerAt(xmin: Option<Bounds>, i: nat): Option<real>
  {
    if xmin.Some? && i < |xmin.value| then xmin.value[i] else None
  }

  function UpperAt(xmax: Option<Bounds>, i: nat): Option<real>
  {
    if xmax.Some? && i < |xmax.value| then xmax.value[i] else None
  }

  /** No coordinate has a finite lower bound above its finite upper bound. */
  predicate Ordered(xmin: Bounds, xmax: Bounds)
    requires |xmin| == |xmax|
  {
    forall i :: 0 <= i < |xmin| && xmin[i].Some? && xmax[i].Some? ==> xmin[i].value <= xmax[i].value
  }

  /** The parameters a constructor accepts. */
  predicate WellFormed(c: Constraint)
  {
    match c
    case Zero => true
    case NoConstraints => true
    case Hyperplane(a, _) => NonZero(a)
    case Halfspace(a, b) => NonZero(a) || b >= 0.0
    case Rectangle(xmin, xmax) =>
      xmin.Some? && xmax.Some? ==> |xmin.value| == |xmax.value| && Ordered(xmin.value, xmax.value)
    case BallInf(_, r) => r > 0.0
    case Ball1(_, r) => r > 0.0
    case Simplex(alpha) => alpha > 0.0
    case FiniteSet(points) => |points| > 0 && SameLength(points, |points[0]|)
  }

  function NewZero(): (r: Constraint)
    ensures WellFormed(r) && r.Zero?
  {
    Zero
  }

  function NewNoConstraints(): (r: Constraint)
    ensures WellFormed(r) && r.NoConstraints?
  {
    NoConstraints
  }

  /** Hyperplane::new: refuses an all-zero normal vector. */
  function NewHyperplane(normal: seq<real>, offset: real): (r: Result<Constraint, Error>)
    ensures r.Success? <==> WellFormed(Hyperplane(normal, offset))
    ensures r.Success? ==> r.value == Hyperplane(normal, offset)
    ensures r.Failure? ==> r.error == ZeroNormal
  {
    if exists i :: 0 <= i < |normal| && normal[i] != 0.0 then Success(Hyperplane(normal, offset))
    else Failure(ZeroNormal)
  }

  /**
   * Halfspace::new: every parameter is accepted except an all-zero normal with a
   * negative offset, whose set <0, x> <= b is empty. An all-zero normal with
   * b >= 0 describes the whole space.
   */
  function NewHalfspace(normal: seq<real>, offset: real): (r: Result<Constraint, Error>)
    ensures r.Success? <==> WellFormed(Halfspace(normal, offset))
    ensures r.Success? ==> r.value == Halfspace(normal, offset)
    ensures r.Failure? ==> r.error == ZeroNormal && offset < 0.0
  {
    if (exists i :: 0 <= i < |normal| && normal[i] != 0.0) || offset >= 0.0 then Success(Halfspace(normal, offset))
    else Failure(ZeroNormal)
  }

  /**
   * Rectangle::new: either bound may be absent; when both are given they must have
   * the same length (and describe a non-empty box).
   */
  function NewRectangle(xmin: Option<Bounds>, xmax: Option<Bounds>): (r: Result<Constraint, Error>)
    ensures r.Success? <==> WellFormed(Rectangle(xmin, xmax))
    ensures r.Success? ==> r.value == Rectangle(xmin, xmax)
    ensures r.Failure? && xmin.Some? && xmax.Some? && |xmin.value| != |xmax.value| ==> r.error == DimensionMismatch
  {
    if xmin.None? || xmax.None? then Success(Rectangle(xmin, xmax))
    else if |xmin.value| != |xmax.value| then Failure(DimensionMismatch)
    else if !Ordered(xmin.value, xmax.value) then Failure(EmptyBox)
    else Success(Rectangle(xmin, xmax))
  }

  /** BallInf::new: the radius must be positive; no center means the origin. */
  function NewBallInf(center: Option<seq<real>>, radius: real): (r: Result<Constraint, Error>)
    ensures r.Success? <==> WellFormed(BallInf(center, radius))
    ensures r.Success? ==> r.value == BallInf(center, radius)
    ensures r.Failure? ==> r.error == NonPositive
  {
    if radius > 0.0 then Success(BallInf(center, radius)) else Failure(NonPositive)
  }

  /** Ball1::new: the radius must be positive; no center means the origin. */
  function NewBall1(center: Option<seq<real>>, radius: real): (r: Result<Constraint, Error>)
    ensures r.Success? <==> WellFormed(Ball1(center, radius))
    ensures r.Success? ==> r.value == Ball1(center, radius)
    ensures r.Failure? ==> r.error == NonPositive
  {
    if radius > 0.0 then Success(Ball1(center, radius)) else Failure(NonPositive)
  }

  /** Simplex::new: the simplex size alpha must be positive. */
  function NewSimplex(alpha: real): (r: Result<Constraint, Error>)
    ensures r.Success? <==> WellFormed(Simplex(alpha))
    ensures r.Success? ==> r.value == Simplex(alpha)
    ensures r.Failure? ==> r.error == NonPositive
  {
    if alpha > 0.0 then Success(Simplex(alpha)) else Failure(NonPositive)
  }

  /** FiniteSet::new: the list must be non-empty and every point as long as the first. */
  function NewFiniteSet(points: seq<seq<real>>): (r: Result<Constraint, Error>)
    ensures r.Success? <==> WellFormed(FiniteSet(points))
    ensures r.Success? ==> r.value == FiniteSet(points)
    ensures |points| == 0 ==> r == Failure(EmptyData)
    ensures |points| > 0 && r.Failure? ==> r.error == DimensionMismatch
  {
    if |points| == 0 then Failure(EmptyData)
    else if exists k :: 0 <= k < |points| && |points[k]| != |points[0]| then Failure(DimensionMismatch)
    else Success(FiniteSet(points))
  }

  // ---------------------------------------------------------------------------
  // Dimensions

  /** The center of a ball, the origin when none was given. */
  function CenterOf(center: Option<seq<real>>, n: nat): (c: seq<real>)
    requires center.Some? ==> |center.value| == n
    ensures |c| == n
  {
    if center.Some? then center.value else Zeros(n)
  }

  /** A buffer of length n is one the constraint can project. */
  predicate Fits(c: Constraint, n: nat)
  {
    match c
    case Zero => true
    case NoConstraints => true
    case Hyperplane(a, _) => |a| == n
    case Halfspace(a, _) => |a| == n
    case Rectangle(xmin, xmax) =>
      (xmin.Some? ==> |xmin.value| == n) && (xmax.Some? ==> |xmax.value| == n)
    case BallInf(center, _) => center.Some? ==> |center.value| == n
    case Ball1(center, _) => center.Some? ==> |center.value| == n
    case Simplex(_) => n > 0
    case FiniteSet(points) => |points| > 0 && |points[0]| == n
  }

  // ---------------------------------------------------------------------------
  // The sets

  /** x lies within the optional bounds lo and hi. */
  predicate Within(x: real, lo: Option<real>, hi: Option<real>)
  {
    (lo.Some? ==> lo.value <= x) && (hi.Some? ==> x <= hi.value)
  }

  /** x belongs to the set the constraint describes. */
  predicate Contains(c: Constraint, x: seq<real>)
    requires Fits(c, |x|)
  {
    match c
    case Zero => forall i :: 0 <= i < |x| ==> x[i] == 0.0
    case NoConstraints => true
    case Hyperplane(a, b) => Dot(a, x) == b
    case Halfspace(a, b) => Dot(a, x) <= b
    case Rectangle(xmin, xmax) => forall i :: 0 <= i < |x| ==> Within(x[i], LowerAt(xmin, i), UpperAt(xmax, i))
    case BallInf(center, r) =>
      var c := CenterOf(center, |x|);
      forall i :: 0 <= i < |x| ==> c[i] - r <= x[i] <= c[i] + r
    case Ball1(center, r) => Norm1(Sub(x, CenterOf(center, |x|))) <= r
    case Simplex(alpha) => (forall i :: 0 <= i < |x| ==> x[i] >= 0.0) && Sum(x) == alpha
    case FiniteSet(points) => x in points
  }

  /**
   * What is_convex() reports: every set of the catalogue is convex except a finite
   * set, which is reported convex exactly when it holds a single point.
   */
  predicate IsConvex(c: Constraint)
  {
    match c
    case FiniteSet(points) => |points| == 1
    case _ => true
  }
}
