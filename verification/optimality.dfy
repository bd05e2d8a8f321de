/**
 * What the projections promise: the result lies in the set, it is a nearest point
 * of the set, members are left unchanged, projecting twice changes nothing more,
 * and for every set that reports itself convex the result satisfies the
 * obtuse-angle inequality |x - y|^2 >= |x - p|^2 + |p - y|^2 for each member y,
 * which makes it the unique nearest point.
 */
module Optimality {
  import opened Wrappers
  import opened Vectors
  import opened ConstraintSets
  import opened WaterFilling
  import opened Projections

  /** p is at least as near to x as any y, with the squared distance |p - y|^2 to spare. */
  predicate Obtuse(x: seq<real>, p: seq<real>, y: seq<real>)
    requires |x| == |p| == |y|
  {
    SqDist(x, y) >= SqDist(x, p) + SqDist(p, y)
  }

  // ---------------------------------------------------------------------------
  // Membership

  lemma {:induction false} ClipWithin(x: real, lo: Option<real>, hi: Option<real>)
    requires lo.Some? && hi.Some? ==> lo.value <= hi.value
    ensures Within(Clip(x, lo, hi), lo, hi)
    ensures Within(x, lo, hi) ==> Clip(x, lo, hi) == x
  {
  }

  lemma {:induction false} RectangleBoundsOrdered(xmin: Option<Bounds>, xmax: Option<Bounds>, i: nat)
    requires WellFormed(Rectangle(xmin, xmax))
    ensures LowerAt(xmin, i).Some? && UpperAt(xmax, i).Some? ==> LowerAt(xmin, i).value <= UpperAt(xmax, i).value
  {
  }

  lemma {:induction false} StepExpand(a: real, x: real, t: real)
    ensures a * (x - t * a) == a * x + (-t) * (a * a)
  {
  }

  lemma {:induction false} StepExpandAt(a: seq<real>, x: seq<real>, t: real, i: nat)
    requires |a| == |x| && i < |a|
    ensures Mul(a, Sub(x, Scale(t, a)))[i] == Mul(a, x)[i] + (-t) * Mul(a, a)[i]
  {
    StepExpand(a[i], x[i], t);
  }

  lemma {:induction false} StepLands(d: real, b: real, n: real, t: real)
    requires n > 0.0 && t == (d - b) / n
    ensures d + (-t) * n == b
  {
    DivMul(d - b, n);
  }

  /** Moving x by -t a changes <a, x> by -t |a|^2. */
  lemma {:induction false} StepDot(a: seq<real>, x: seq<real>, t: real)
    requires |a| == |x|
    ensures Dot(a, Sub(x, Scale(t, a))) == Dot(a, x) + (-t) * NormSq(a)
  {
    var p := Sub(x, Scale(t, a));
    forall i | 0 <= i < |a| ensures Mul(a, p)[i] == Mul(a, x)[i] + (-t) * Mul(a, a)[i] {
      StepExpandAt(a, x, t, i);
    }
    SumAffine(Mul(a, x), Mul(a, a), Mul(a, p), -t);
  }

  /** The hyperplane projection lands on the hyperplane. */
  lemma {:induction false} HyperplaneOnPlane(a: seq<real>, b: real, x: seq<real>)
    requires |a| == |x| && NonZero(a)
    ensures Dot(a, HyperplaneProj(a, b, x)) == b
  {
    var t := Step(a, b, x);
    StepDot(a, x, t);
    NormSqPositive(a);
    StepLands(Dot(a, x), b, NormSq(a), t);
  }

  /**
   * Restoring signs keeps the magnitudes when they are non-negative, and each
   * coordinate of the result agrees in sign with the matching coordinate of x.
   */
  lemma {:induction false} SignRestoreAbs(x: seq<real>, q: seq<real>)
    requires |x| == |q| && forall i :: 0 <= i < |q| ==> q[i] >= 0.0
    ensures AbsAll(SignRestore(x, q)) == q
    ensures forall i :: 0 <= i < |x| ==> SignRestore(x, q)[i] * x[i] >= 0.0
  {
    var p := SignRestore(x, q);
    forall i | 0 <= i < |x| ensures p[i] * x[i] >= 0.0 {
      if x[i] < 0.0 {
        assert p[i] * x[i] == q[i] * -x[i];
      }
    }
  }

  /**
   * A rectangle projection keeps each coordinate within the bounds present for it,
   * leaves a coordinate that already lies within them as it is, and otherwise moves
   * it to the bound it violates.
   */
  lemma {:induction false} RectangleProjClips(xmin: Option<Bounds>, xmax: Option<Bounds>, x: seq<real>, i: nat)
    requires WellFormed(Rectangle(xmin, xmax)) && i < |x|
    ensures LowerAt(xmin, i).Some? ==> LowerAt(xmin, i).value <= RectangleProj(xmin, xmax, x)[i]
    ensures UpperAt(xmax, i).Some? ==> RectangleProj(xmin, xmax, x)[i] <= UpperAt(xmax, i).value
    ensures (LowerAt(xmin, i).None? || LowerAt(xmin, i).value <= x[i])
         && (UpperAt(xmax, i).None? || x[i] <= UpperAt(xmax, i).value)
        ==> RectangleProj(xmin, xmax, x)[i] == x[i]
    ensures LowerAt(xmin, i).Some? && x[i] < LowerAt(xmin, i).value
        ==> RectangleProj(xmin, xmax, x)[i] == LowerAt(xmin, i).value
    ensures UpperAt(xmax, i).Some? && x[i] > UpperAt(xmax, i).value
        ==> RectangleProj(xmin, xmax, x)[i] == UpperAt(xmax, i).value
  {
    if LowerAt(xmin, i).Some? && UpperAt(xmax, i).Some? {
      assert xmin.value[i].Some? && xmax.value[i].Some?;
    }
  }

  /**
   * An infinity-ball projection keeps each coordinate within r of the center's,
   * leaves a coordinate already within r as it is, and otherwise moves it to the
   * nearer face c_i - r or c_i + r.
   */
  lemma {:induction false} BallInfProjClips(c: seq<real>, r: real, x: seq<real>, i: nat)
    requires |c| == |x| && r > 0.0 && i < |x|
    ensures -r <= BallInfProj(c, r, x)[i] - c[i] <= r
    ensures -r <= x[i] - c[i] <= r ==> BallInfProj(c, r, x)[i] == x[i]
    ensures x[i] - c[i] > r ==> BallInfProj(c, r, x)[i] == c[i] + r
    ensures x[i] - c[i] < -r ==> BallInfProj(c, r, x)[i] == c[i] - r
  {
  }

  /** The L1-ball projection at the origin lands in the ball, on its surface when x was outside. */
  lemma {:induction false} Ball1AtOriginNorm(x: seq<real>, r: real)
    requires r > 0.0
    ensures Norm1(Ball1AtOrigin(x, r)) <= r
    ensures Norm1(x) > r ==> Norm1(Ball1AtOrigin(x, r)) == r
  {
    if Norm1(x) > r {
      SignRestoreAbs(x, SimplexProj(AbsAll(x), r));
    }
  }

  /** The projection lies in the set. */
  lemma {:induction false} ProjectionInSet(c: Constraint, x: seq<real>)
    requires WellFormed(c) && Fits(c, |x|)
    ensures Contains(c, Proj(c, x))
  {
    var p := Proj(c, x);
    match c
    case Zero =>
    case NoConstraints =>
    case Hyperplane(a, b) => HyperplaneOnPlane(a, b, x);
    case Halfspace(a, b) =>
      if Dot(a, x) > b {
        ZeroNormalDot(a, x);
        HyperplaneOnPlane(a, b, x);
      }
    case Rectangle(xmin, xmax) =>
      forall i | 0 <= i < |x| ensures Within(p[i], LowerAt(xmin, i), UpperAt(xmax, i)) {
        RectangleBoundsOrdered(xmin, xmax, i);
        ClipWithin(x[i], LowerAt(xmin, i), UpperAt(xmax, i));
      }
    case BallInf(center, r) =>
      var cx := CenterOf(center, |x|);
      forall i | 0 <= i < |x| ensures cx[i] - r <= p[i] <= cx[i] + r {
        ClipWithin(x[i] - cx[i], Some(-r), Some(r));
      }
    case Ball1(center, r) =>
      var cx := CenterOf(center, |x|);
      SubAddCancel(Ball1AtOrigin(Sub(x, cx), r), cx);
      Ball1AtOriginNorm(Sub(x, cx), r);
    case Simplex(alpha) =>
    case FiniteSet(points) =>
  }

  // ---------------------------------------------------------------------------
  // The obtuse-angle inequality, set by set

  /**
   * The inequality follows from a per-coordinate lower bound g on the cross terms
   * (x_i - p_i)(p_i - y_i) whose sum is non-negative.
   */
  lemma {:induction false} ObtuseFromCross(x: seq<real>, p: seq<real>, y: seq<real>, g: seq<real>)
    requires |x| == |p| == |y| == |g|
    requires forall i :: 0 <= i < |x| ==> (x[i] - p[i]) * (p[i] - y[i]) >= g[i]
    requires Sum(g) >= 0.0
    ensures Obtuse(x, p, y)
  {
    CrossTermBound(x, p, y, g);
  }

  /** A projection that changes nothing satisfies the inequality trivially. */
  lemma {:induction false} ObtuseIdentity(x: seq<real>, y: seq<real>)
    requires |x| == |y|
    ensures Obtuse(x, x, y)
  {
    SqDistSelf(x);
  }

  /** Clipping into an interval makes a non-negative cross term with any point of it. */
  lemma {:induction false} ClipCross(x: real, lo: Option<real>, hi: Option<real>, y: real)
    requires lo.Some? && hi.Some? ==> lo.value <= hi.value
    requires Within(y, lo, hi)
    ensures (x - Clip(x, lo, hi)) * (Clip(x, lo, hi) - y) >= 0.0
  {
    MulNonneg(x - Clip(x, lo, hi), Clip(x, lo, hi) - y);
  }

  lemma {:induction false} RectangleObtuse(xmin: Option<Bounds>, xmax: Option<Bounds>, x: seq<real>, y: seq<real>)
    requires WellFormed(Rectangle(xmin, xmax)) && Fits(Rectangle(xmin, xmax), |x|) && |y| == |x|
    requires Contains(Rectangle(xmin, xmax), y)
    ensures Obtuse(x, RectangleProj(xmin, xmax, x), y)
  {
    var p := RectangleProj(xmin, xmax, x);
    var g := Zeros(|x|);
    forall i | 0 <= i < |x| ensures (x[i] - p[i]) * (p[i] - y[i]) >= g[i] {
      RectangleBoundsOrdered(xmin, xmax, i);
      ClipCross(x[i], LowerAt(xmin, i), UpperAt(xmax, i), y[i]);
    }
    SumZero(g);
    ObtuseFromCross(x, p, y, g);
  }

  lemma {:induction false} BallInfObtuse(cx: seq<real>, r: real, x: seq<real>, y: seq<real>)
    requires |cx| == |x| == |y| && r > 0.0
    requires forall i :: 0 <= i < |x| ==> cx[i] - r <= y[i] <= cx[i] + r
    ensures Obtuse(x, BallInfProj(cx, r, x), y)
  {
    var p := BallInfProj(cx, r, x);
    var g := Zeros(|x|);
    forall i | 0 <= i < |x| ensures (x[i] - p[i]) * (p[i] - y[i]) >= g[i] {
      var q := Clip(x[i] - cx[i], Some(-r), Some(r));
      ClipCross(x[i] - cx[i], Some(-r), Some(r), y[i] - cx[i]);
      MulCongr(x[i] - p[i], (x[i] - cx[i]) - q, p[i] - y[i], q - (y[i] - cx[i]));
    }
    SumZero(g);
    ObtuseFromCross(x, p, y, g);
  }

  lemma {:induction false} HyperplaneCrossTerm(x: real, p: real, y: real, a: real, t: real)
    requires x - p == t * a
    ensures (x - p) * (p - y) == t * (a * p - a * y)
  {
    MulCongr(x - p, t * a, p - y, p - y);
  }

  lemma {:induction false} HyperplaneCrossAt(a: seq<real>, x: seq<real>, p: seq<real>, y: seq<real>, t: real, i: nat)
    requires |a| == |x| == |p| == |y| && i < |x| && x[i] - p[i] == t * a[i]
    ensures (x[i] - p[i]) * (p[i] - y[i]) >= ScaledDiffs(t, Mul(a, p), Mul(a, y))[i]
  {
    HyperplaneCrossTerm(x[i], p[i], y[i], a[i], t);
  }

  /**
   * For a step p = x - t a along a normal a, the cross terms (x_i - p_i)(p_i - y_i)
   * sum to t (<a, p> - <a, y>).
   */
  lemma {:induction false} StepCrossSum(a: seq<real>, x: seq<real>, p: seq<real>, y: seq<real>, t: real) returns (g: seq<real>)
    requires |a| == |x| == |p| == |y|
    requires forall i :: 0 <= i < |x| ==> x[i] - p[i] == t * a[i]
    ensures |g| == |x|
    ensures forall i :: 0 <= i < |x| ==> (x[i] - p[i]) * (p[i] - y[i]) >= g[i]
    ensures Sum(g) == t * (Dot(a, p) - Dot(a, y))
  {
    g := ScaledDiffs(t, Mul(a, p), Mul(a, y));
    forall i | 0 <= i < |x| ensures (x[i] - p[i]) * (p[i] - y[i]) >= g[i] {
      HyperplaneCrossAt(a, x, p, y, t, i);
    }
    SumScaledDiffs(t, Mul(a, p), Mul(a, y));
  }

  lemma {:induction false} HyperplaneObtuse(a: seq<real>, b: real, x: seq<real>, y: seq<real>)
    requires |a| == |x| == |y| && NonZero(a) && Dot(a, y) == b
    ensures Obtuse(x, HyperplaneProj(a, b, x), y)
  {
    var p := HyperplaneProj(a, b, x);
    HyperplaneOnPlane(a, b, x);
    var g := CrossSumZero(a, x, p, y, Step(a, b, x));
    ObtuseFromCross(x, p, y, g);
  }

  /**
   * When x - p is a multiple t of the normal a and p and y lie on the same
   * hyperplane, the cross terms sum to zero.
   */
  lemma {:induction false} CrossSumZero(a: seq<real>, x: seq<real>, p: seq<real>, y: seq<real>, t: real)
    returns (g: seq<real>)
    requires |a| == |x| == |p| == |y| && Dot(a, p) == Dot(a, y)
    requires forall i :: 0 <= i < |x| ==> x[i] - p[i] == t * a[i]
    ensures |g| == |x| && Sum(g) == 0.0
    ensures forall i :: 0 <= i < |x| ==> (x[i] - p[i]) * (p[i] - y[i]) >= g[i]
  {
    g := StepCrossSum(a, x, p, y, t);
    assert Dot(a, p) - Dot(a, y) == 0.0;
  }

  /**
   * When x - p is a non-negative multiple t of the normal a and y lies on the
   * side of p's hyperplane that a points away from, the cross terms sum to at least zero.
   */
  lemma {:induction false} CrossSumNonneg(a: seq<real>, x: seq<real>, p: seq<real>, y: seq<real>, t: real)
    returns (g: seq<real>)
    requires |a| == |x| == |p| == |y| && Dot(a, p) >= Dot(a, y) && t >= 0.0
    requires forall i :: 0 <= i < |x| ==> x[i] - p[i] == t * a[i]
    ensures |g| == |x| && Sum(g) >= 0.0
    ensures forall i :: 0 <= i < |x| ==> (x[i] - p[i]) * (p[i] - y[i]) >= g[i]
  {
    g := StepCrossSum(a, x, p, y, t);
    MulNonneg(t, Dot(a, p) - Dot(a, y));
  }

  lemma {:induction false} HalfspaceObtuse(a: seq<real>, b: real, x: seq<real>, y: seq<real>)
    requires |a| == |x| == |y| && WellFormed(Halfspace(a, b)) && Dot(a, y) <= b
    ensures Obtuse(x, Proj(Halfspace(a, b), x), y)
  {
    if Dot(a, x) > b {
      ZeroNormalDot(a, x);
      HalfspaceCutObtuse(a, b, x, y);
    } else {
      ObtuseIdentity(x, y);
    }
  }

  /** A point outside the halfspace moves onto its boundary hyperplane. */
  lemma {:induction false} HalfspaceCutObtuse(a: seq<real>, b: real, x: seq<real>, y: seq<real>)
    requires |a| == |x| == |y| && NonZero(a) && Dot(a, y) <= b < Dot(a, x)
    ensures Obtuse(x, HyperplaneProj(a, b, x), y)
  {
    var p := HyperplaneProj(a, b, x);
    HyperplaneOnPlane(a, b, x);
    NormSqPositive(a);
    DivPos(Dot(a, x) - b, NormSq(a));
    var g := CrossSumNonneg(a, x, p, y, Step(a, b, x));
    ObtuseFromCross(x, p, y, g);
  }

  /**
   * Soft-thresholding at t against a point y >= 0: the cross term is at least
   * t (p - y), with equality where the coordinate stays positive.
   */
  lemma {:induction false} SimplexCross(x: real, t: real, y: real)
    requires y >= 0.0
    ensures (x - Max0(x - t)) * (Max0(x - t) - y) >= t * (Max0(x - t) - y)
  {
    var p := Max0(x - t);
    if x - t > 0.0 {
      MulCongr(x - p, t, p - y, p - y);
    } else {
      MulMono(x, t, y);
      assert (x - p) * (p - y) == -(x * y);
      assert t * (p - y) == -(t * y);
    }
  }

  lemma {:induction false} SimplexCrossAll(x: seq<real>, t: real, y: seq<real>)
    requires |y| == |x| && forall i :: 0 <= i < |y| ==> y[i] >= 0.0
    ensures forall i :: 0 <= i < |x| ==>
      (x[i] - PosPart(x, t)[i]) * (PosPart(x, t)[i] - y[i]) >= ScaledDiffs(t, PosPart(x, t), y)[i]
  {
    forall i | 0 <= i < |x|
      ensures (x[i] - PosPart(x, t)[i]) * (PosPart(x, t)[i] - y[i]) >= ScaledDiffs(t, PosPart(x, t), y)[i]
    {
      SimplexCross(x[i], t, y[i]);
    }
  }

  /** The inequality from cross terms bounded by t (p_i - y_i), when p and y have equal sums. */
  lemma {:induction false} ObtuseFromScaledCross(x: seq<real>, p: seq<real>, y: seq<real>, t: real)
    requires |x| == |p| == |y| && Sum(p) == Sum(y)
    requires forall i :: 0 <= i < |x| ==> (x[i] - p[i]) * (p[i] - y[i]) >= ScaledDiffs(t, p, y)[i]
    ensures Obtuse(x, p, y)
  {
    SumScaledDiffsZero(t, p, y);
    ObtuseFromCross(x, p, y, ScaledDiffs(t, p, y));
  }

  /**
   * Soft-thresholding x at any level t satisfies the inequality against every
   * non-negative y with the same sum as the result.
   */
  lemma {:induction false} SoftThresholdObtuse(x: seq<real>, t: real, y: seq<real>)
    requires |y| == |x| && forall i :: 0 <= i < |y| ==> y[i] >= 0.0
    requires Sum(PosPart(x, t)) == Sum(y)
    ensures Obtuse(x, PosPart(x, t), y)
  {
    SimplexCrossAll(x, t, y);
    ObtuseFromScaledCross(x, PosPart(x, t), y, t);
  }

  lemma {:induction false} SimplexObtuse(x: seq<real>, alpha: real, y: seq<real>)
    requires |x| > 0 && alpha > 0.0 && |y| == |x|
    requires Contains(Simplex(alpha), y)
    ensures Obtuse(x, SimplexProj(x, alpha), y)
  {
    SoftThresholdObtuse(x, SimplexThreshold(x, alpha), y);
  }

  /**
   * A soft threshold t at which the thresholded magnitudes sum to less than the
   * magnitudes themselves is not negative.
   */
  lemma {:induction false} ThresholdNonneg(u: seq<real>, t: real)
    requires Sum(PosPart(u, t)) < Sum(u)
    ensures t >= 0.0
  {
    if t < 0.0 {
      SumMono(u, PosPart(u, t));
    }
  }

  /**
   * The cross term of one coordinate of the L1-ball projection: the magnitude
   * s = max(|x| - t, 0) is given the sign of x, and the cross term is at least
   * t (s - |y|).
   */
  lemma {:induction false} Ball1Cross(x: real, t: real, y: real, s: real, q: real)
    requires t >= 0.0 && s == Max0(Abs(x) - t) && q == (if x < 0.0 then -s else s)
    ensures (x - q) * (q - y) >= t * (s - Abs(y))
  {
    if Abs(x) - t > 0.0 {
      if x < 0.0 {
        MulCongr(x - q, -t, q - y, -s - y);
        assert (-t) * (-s - y) == t * (s + y);
        MulMono(s - Abs(y), s + y, t);
        assert (s - Abs(y)) * t == t * (s - Abs(y));
        assert (s + y) * t == t * (s + y);
      } else {
        MulCongr(x - q, t, q - y, s - y);
        MulMono(s - Abs(y), s - y, t);
        assert (s - Abs(y)) * t == t * (s - Abs(y));
        assert (s - y) * t == t * (s - y);
      }
    } else {
      MulAbs(x, y);
      MulMono(Abs(x), t, Abs(y));
      assert (x - q) * (q - y) == -(x * y);
      assert t * (s - Abs(y)) == -(t * Abs(y));
    }
  }

  /**
   * The cross terms of soft-thresholding the magnitudes of x at t >= 0 (signs kept)
   * sum to at least t (r - |y|_1) >= 0 when the thresholded magnitudes sum to r
   * and y lies in the L1 ball of radius r.
   */
  lemma {:induction false} SoftThresholdCrossSum(x: seq<real>, t: real, s: seq<real>, q: seq<real>, y: seq<real>, r: real)
    returns (g: seq<real>)
    requires t >= 0.0 && |y| == |x|
    requires s == PosPart(AbsAll(x), t) && q == SignRestore(x, s)
    requires Sum(s) == r && Norm1(y) <= r
    ensures |g| == |x|
    ensures forall i :: 0 <= i < |x| ==> (x[i] - q[i]) * (q[i] - y[i]) >= g[i]
    ensures Sum(g) >= 0.0
  {
    var ay := AbsAll(y);
    g := seq(|x|, i requires 0 <= i < |x| => t * (s[i] - ay[i]));
    SumScaledDiffNonneg(s, ay, g, t);
    SoftThresholdCross(x, t, s, q, y, g);
  }

  lemma {:induction false} SoftThresholdCross(x: seq<real>, t: real, s: seq<real>, q: seq<real>, y: seq<real>, g: seq<real>)
    requires t >= 0.0 && |y| == |x| == |g|
    requires s == PosPart(AbsAll(x), t) && q == SignRestore(x, s)
    requires forall i :: 0 <= i < |x| ==> g[i] == t * (s[i] - Abs(y[i]))
    ensures forall i :: 0 <= i < |x| ==> (x[i] - q[i]) * (q[i] - y[i]) >= g[i]
  {
    forall i | 0 <= i < |x| ensures (x[i] - q[i]) * (q[i] - y[i]) >= g[i] {
      Ball1Cross(x[i], t, y[i], s[i], q[i]);
    }
  }

  lemma {:induction false} Ball1AtOriginObtuse(x: seq<real>, r: real, y: seq<real>)
    requires r > 0.0 && |y| == |x| && Norm1(y) <= r
    ensures Obtuse(x, Ball1AtOrigin(x, r), y)
  {
    if Norm1(x) <= r {
      ObtuseIdentity(x, y);
    } else {
      var u := AbsAll(x);
      var t := SimplexThreshold(u, r);
      var s := PosPart(u, t);
      var q := SignRestore(x, s);
      assert q == Ball1AtOrigin(x, r);
      ThresholdNonneg(u, t);
      var g := SoftThresholdCrossSum(x, t, s, q, y, r);
      ObtuseFromCross(x, q, y, g);
    }
  }

  /** Squared distances do not change when both points are moved by the same c. */
  lemma {:induction false} SqDistShift(u: seq<real>, v: seq<real>, c: seq<real>)
    requires |u| == |v| == |c|
    ensures SqDist(Sub(u, c), Sub(v, c)) == SqDist(u, v)
  {
    assert SqDiffs(Sub(u, c), Sub(v, c)) == SqDiffs(u, v);
  }

  lemma {:induction false} Ball1Obtuse(cx: seq<real>, r: real, x: seq<real>, y: seq<real>)
    requires r > 0.0 && |cx| == |x| == |y| && Norm1(Sub(y, cx)) <= r
    ensures Obtuse(x, Add(Ball1AtOrigin(Sub(x, cx), r), cx), y)
  {
    var q := Ball1AtOrigin(Sub(x, cx), r);
    var p := Add(q, cx);
    Ball1AtOriginObtuse(Sub(x, cx), r, Sub(y, cx));
    SubAddCancel(q, cx);
    SqDistShift(x, y, cx);
    SqDistShift(x, p, cx);
    SqDistShift(p, y, cx);
  }

  // ---------------------------------------------------------------------------
  // The projection theorems

  /**
   * For every set that reports itself convex, the projection p of x satisfies
   * |x - y|^2 >= |x - p|^2 + |p - y|^2 for every member y of the set.
   */
  lemma {:induction false} ProjectionObtuse(c: Constraint, x: seq<real>, y: seq<real>)
    requires WellFormed(c) && Fits(c, |x|) && |y| == |x|
    requires IsConvex(c) && Contains(c, y)
    ensures Obtuse(x, Proj(c, x), y)
  {
    match c
    case Zero =>
      assert y == Zeros(|x|);
      SqDistSelf(y);
    case NoConstraints => ObtuseIdentity(x, y);
    case Hyperplane(a, b) => HyperplaneObtuse(a, b, x, y);
    case Halfspace(a, b) => HalfspaceObtuse(a, b, x, y);
    case Rectangle(xmin, xmax) => RectangleObtuse(xmin, xmax, x, y);
    case BallInf(center, r) => BallInfObtuse(CenterOf(center, |x|), r, x, y);
    case Ball1(center, r) => Ball1Obtuse(CenterOf(center, |x|), r, x, y);
    case Simplex(alpha) => SimplexObtuse(x, alpha, y);
    case FiniteSet(points) =>
      assert y == points[0];
      SqDistSelf(y);
  }

  /** The projection is a point of the set nearest to x. */
  lemma {:induction false} ProjectionIsNearest(c: Constraint, x: seq<real>, y: seq<real>)
    requires WellFormed(c) && Fits(c, |x|) && |y| == |x| && Contains(c, y)
    ensures SqDist(x, Proj(c, x)) <= SqDist(x, y)
  {
    if c.FiniteSet? {
      var k :| 0 <= k < |c.points| && c.points[k] == y;
    } else {
      ProjectionObtuse(c, x, y);
      SqDistNonneg(Proj(c, x), y);
    }
  }

  /** Members of the set are left unchanged. */
  lemma {:induction false} ProjectionFixesMembers(c: Constraint, x: seq<real>)
    requires WellFormed(c) && Fits(c, |x|) && Contains(c, x)
    ensures Proj(c, x) == x
  {
    var p := Proj(c, x);
    ProjectionIsNearest(c, x, x);
    SqDistSelf(x);
    SqDistNonneg(x, p);
    SqDistZero(x, p);
  }

  /** Projecting a projection changes nothing. */
  lemma {:induction false} ProjectionIdempotent(c: Constraint, x: seq<real>)
    requires WellFormed(c) && Fits(c, |x|)
    ensures Proj(c, Proj(c, x)) == Proj(c, x)
  {
    ProjectionInSet(c, x);
    ProjectionFixesMembers(c, Proj(c, x));
  }

  /** For a set reported convex, no other member is as near to x as the projection. */
  lemma {:induction false} ProjectionUnique(c: Constraint, x: seq<real>, y: seq<real>)
    requires WellFormed(c) && Fits(c, |x|) && |y| == |x| && IsConvex(c) && Contains(c, y)
    requires SqDist(x, y) <= SqDist(x, Proj(c, x))
    ensures y == Proj(c, x)
  {
    var p := Proj(c, x);
    ProjectionObtuse(c, x, y);
    SqDistNonneg(p, y);
    SqDistZero(p, y);
  }

  // ---------------------------------------------------------------------------
  // Convexity

  /** The point t y + (1 - t) z of the segment between y and z. */
  function Mix(t: real, y: seq<real>, z: seq<real>): (m: seq<real>)
    requires |y| == |z|
    ensures |m| == |y| && forall i :: 0 <= i < |y| ==> m[i] == t * y[i] + (1.0 - t) * z[i]
  {
    seq(|y|, i requires 0 <= i < |y| => t * y[i] + (1.0 - t) * z[i])
  }

  /** Weighted squared distances to y and z measured from p and from their mix m. */
  lemma {:induction false} MixIdentity(t: real, y: real, z: real, p: real, m: real)
    requires m == t * y + (1.0 - t) * z
    ensures t * Sq(p - y) + (1.0 - t) * Sq(p - z) == Sq(p - m) + t * Sq(m - y) + (1.0 - t) * Sq(m - z)
  {
  }

  /** The weighted identity t a_i + (1 - t) b_i == c_i + t d_i + (1 - t) e_i in every coordinate. */
  predicate WeightedCoords(t: real, a: seq<real>, b: seq<real>, c: seq<real>, d: seq<real>, e: seq<real>)
    requires |a| == |b| == |c| == |d| == |e|
  {
    forall i :: 0 <= i < |a| ==> t * a[i] + (1.0 - t) * b[i] == c[i] + t * d[i] + (1.0 - t) * e[i]
  }

  /** The same identity for the sums. */
  predicate WeightedSums(t: real, a: seq<real>, b: seq<real>, c: seq<real>, d: seq<real>, e: seq<real>)
  {
    t * Sum(a) + (1.0 - t) * Sum(b) == Sum(c) + t * Sum(d) + (1.0 - t) * Sum(e)
  }

  /** The weighted form of MixIdentity, summed over the coordinates. */
  lemma {:induction false} SumMixIdentity(t: real, a: seq<real>, b: seq<real>, c: seq<real>, d: seq<real>, e: seq<real>)
    requires |a| == |b| == |c| == |d| == |e|
    requires WeightedCoords(t, a, b, c, d, e)
    ensures WeightedSums(t, a, b, c, d, e)
  {
    if |a| > 0 {
      var n := |a| - 1;
      assert WeightedCoords(t, a[..n], b[..n], c[..n], d[..n], e[..n]) by {
        forall i | 0 <= i < n
          ensures t * a[..n][i] + (1.0 - t) * b[..n][i] == c[..n][i] + t * d[..n][i] + (1.0 - t) * e[..n][i]
        {
          assert a[..n][i] == a[i] && b[..n][i] == b[i] && c[..n][i] == c[i] && d[..n][i] == d[i] && e[..n][i] == e[i];
        }
      }
      SumMixIdentity(t, a[..n], b[..n], c[..n], d[..n], e[..n]);
      MulDist(t, Sum(a[..n]), a[n]);
      MulDist(1.0 - t, Sum(b[..n]), b[n]);
      MulDist(t, Sum(d[..n]), d[n]);
      MulDist(1.0 - t, Sum(e[..n]), e[n]);
    }
  }

  /** The scalar core of the midpoint argument. */
  lemma {:induction false} ScaleBound(k: real, a: real, b: real, d: real)
    requires k >= 0.0 && d >= a + b
    ensures k * d >= k * a + k * b
  {
    MulNonneg(k, d - (a + b));
    MulDist(k, d, a + b);
    MulDist(k, a, b);
  }

  lemma {:induction false} WeightsSum(t: real, e: real)
    ensures t * e + (1.0 - t) * e == e
  {
  }

  lemma {:induction false} WeightedObtuse(t: real, dy: real, dz: real, e: real, ay: real, az: real, c: real)
    requires 0.0 <= t <= 1.0 && e >= 0.0 && c >= 0.0
    requires dy >= e + ay && dz >= e + az
    requires t * ay + (1.0 - t) * az == c + t * dy + (1.0 - t) * dz
    ensures e == 0.0
  {
    ScaleBound(t, e, ay, dy);
    ScaleBound(1.0 - t, e, az, dz);
    WeightsSum(t, e);
    WeightedClose(t * dy, (1.0 - t) * dz, t * e, (1.0 - t) * e, t * ay, (1.0 - t) * az, e, c);
  }

  /** The linear step of WeightedObtuse, with every product named. */
  lemma {:induction false} WeightedClose(pd: real, qd: real, pe: real, qe: real, pa: real, qa: real, e: real, c: real)
    requires pd >= pe + pa && qd >= qe + qa && pe + qe == e
    requires pa + qa == c + pd + qd && e >= 0.0 && c >= 0.0
    ensures e == 0.0
  {
  }

  lemma {:induction false} MixIdentityAt(t: real, y: seq<real>, z: seq<real>, p: seq<real>, i: nat)
    requires |y| == |z| == |p| && i < |y|
    ensures t * SqDiffs(p, y)[i] + (1.0 - t) * SqDiffs(p, z)[i]
         == SqDiffs(p, Mix(t, y, z))[i] + t * SqDiffs(Mix(t, y, z), y)[i] + (1.0 - t) * SqDiffs(Mix(t, y, z), z)[i]
  {
    MixIdentity(t, y[i], z[i], p[i], Mix(t, y, z)[i]);
  }

  /** The weighted squared distances from p to y and z, against those from m. */
  predicate MixBalanced(t: real, m: seq<real>, y: seq<real>, z: seq<real>, p: seq<real>)
    requires |m| == |y| == |z| == |p|
  {
    WeightedSums(t, SqDiffs(p, y), SqDiffs(p, z), SqDiffs(p, m), SqDiffs(m, y), SqDiffs(m, z))
  }

  /** MixIdentity for whole vectors: the balance holds at the mix m of y and z. */
  lemma {:induction false} MixSqDist(t: real, y: seq<real>, z: seq<real>, p: seq<real>)
    requires |y| == |z| == |p|
    ensures MixBalanced(t, Mix(t, y, z), y, z, p)
  {
    var m := Mix(t, y, z);
    forall i | 0 <= i < |y|
      ensures t * SqDiffs(p, y)[i] + (1.0 - t) * SqDiffs(p, z)[i] == SqDiffs(p, m)[i] + t * SqDiffs(m, y)[i] + (1.0 - t) * SqDiffs(m, z)[i]
    {
      MixIdentityAt(t, y, z, p, i);
    }
    SumMixIdentity(t, SqDiffs(p, y), SqDiffs(p, z), SqDiffs(p, m), SqDiffs(m, y), SqDiffs(m, z));
  }

  /** A point p obtuse towards y and z from a balanced m is m itself. */
  lemma {:induction false} MidpointGap(t: real, m: seq<real>, y: seq<real>, z: seq<real>, p: seq<real>)
    requires |m| == |y| == |z| == |p| && 0.0 <= t <= 1.0
    requires Obtuse(m, p, y) && Obtuse(m, p, z) && MixBalanced(t, m, y, z, p)
    ensures p == m
  {
    SqDistNonneg(m, p);
    SqDistNonneg(p, m);
    WeightedGap(t, SqDiffs(p, y), SqDiffs(p, z), SqDiffs(p, m), SqDiffs(m, y), SqDiffs(m, z), SqDiffs(m, p));
    SqDistZero(m, p);
  }

  /** WeightedObtuse for sums: f sums to 0 when both gaps are covered and the sums balance. */
  lemma {:induction false} WeightedGap(t: real, a: seq<real>, b: seq<real>, c: seq<real>, d: seq<real>, e: seq<real>, f: seq<real>)
    requires 0.0 <= t <= 1.0 && WeightedSums(t, a, b, c, d, e)
    requires Sum(d) >= Sum(f) + Sum(a) && Sum(e) >= Sum(f) + Sum(b)
    requires Sum(f) >= 0.0 && Sum(c) >= 0.0
    ensures Sum(f) == 0.0
  {
    WeightedObtuse(t, Sum(d), Sum(e), Sum(f), Sum(a), Sum(b), Sum(c));
  }

  /**
   * If p satisfies the obtuse-angle inequality at the mix m of y and z against both
   * y and z, then p is m itself.
   */
  lemma {:induction false} ObtuseMidpoint(y: seq<real>, z: seq<real>, p: seq<real>, t: real)
    requires |y| == |z| == |p| && 0.0 <= t <= 1.0
    requires Obtuse(Mix(t, y, z), p, y) && Obtuse(Mix(t, y, z), p, z)
    ensures p == Mix(t, y, z)
  {
    MixSqDist(t, y, z, p);
    MidpointGap(t, Mix(t, y, z), y, z, p);
  }

  /**
   * What is_convex() reports is sound: when it says convex, every point of the
   * segment between two members is a member.
   */
  lemma {:induction false} ConvexWhenReported(c: Constraint, y: seq<real>, z: seq<real>, t: real)
    requires WellFormed(c) && Fits(c, |y|) && |z| == |y| && IsConvex(c)
    requires Contains(c, y) && Contains(c, z) && 0.0 <= t <= 1.0
    ensures Contains(c, Mix(t, y, z))
  {
    var m := Mix(t, y, z);
    ProjectionObtuse(c, m, y);
    ProjectionObtuse(c, m, z);
    ObtuseMidpoint(y, z, Proj(c, m), t);
    ProjectionInSet(c, m);
  }
  // ---------------------------------------------------------------------------
  // The optimality conditions in inner-product form

  lemma {:induction false} SqExpand(a: real, b: real)
    ensures Sq(a - b) == a * a - 2.0 * (a * b) + b * b
  {
  }

  /** |u - w|^2 == |u|^2 - 2 <u, w> + |w|^2. */
  lemma {:induction false} SqDistExpand(u: seq<real>, w: seq<real>)
    requires |u| == |w|
    ensures SqDist(u, w) == NormSq(u) - 2.0 * Dot(u, w) + NormSq(w)
  {
    var sq, uu, uw, ww := SqDiffs(u, w), Mul(u, u), Mul(u, w), Mul(w, w);
    var s := Add(uu, ww);
    forall i | 0 <= i < |u| ensures sq[i] == s[i] + -2.0 * uw[i] {
      SqExpand(u[i], w[i]);
    }
    SumAffine(uu, ww, s, 1.0);
    SumAffine(s, uw, sq, -2.0);
  }

  lemma {:induction false} DotSym(u: seq<real>, w: seq<real>)
    requires |u| == |w|
    ensures Dot(u, w) == Dot(w, u)
  {
    assert Mul(u, w) == Mul(w, u);
  }

  /**
   * The variational inequality <x - p, y - p> <= 0 for the projection p of x onto a
   * set reported convex and any member y, written as <x, y> - <p, y> <= <x, p> - |p|^2.
   */
  lemma {:induction false} ProjectionVariational(c: Constraint, x: seq<real>, y: seq<real>)
    requires WellFormed(c) && Fits(c, |x|) && |y| == |x|
    requires IsConvex(c) && Contains(c, y)
    ensures Dot(x, y) - Dot(Proj(c, x), y) <= Dot(x, Proj(c, x)) - NormSq(Proj(c, x))
  {
    var p := Proj(c, x);
    ProjectionObtuse(c, x, y);
    SqDistExpand(x, y);
    SqDistExpand(x, p);
    SqDistExpand(p, y);
  }

  /** The vector with s in coordinate j and 0 elsewhere. */
  function Vertex(n: nat, j: nat, s: real): (v: seq<real>)
    ensures |v| == n && forall i :: 0 <= i < n ==> v[i] == (if i == j then s else 0.0)
  {
    seq(n, i => if i == j then s else 0.0)
  }

  /** A sequence that is zero outside coordinate j sums to its entry at j. */
  lemma {:induction false} SumSingle(w: seq<real>, j: nat)
    requires j < |w| && forall i :: 0 <= i < |w| && i != j ==> w[i] == 0.0
    ensures Sum(w) == w[j]
  {
    var n := |w| - 1;
    if j < n {
      SumSingle(w[..n], j);
    } else {
      SumZero(w[..n]);
    }
  }

  lemma {:induction false} DotVertex(u: seq<real>, j: nat, s: real)
    requires j < |u|
    ensures Dot(u, Vertex(|u|, j, s)) == u[j] * s
  {
    SumSingle(Mul(u, Vertex(|u|, j, s)), j);
  }

  /** The vertex alpha e_j lies in the simplex of size alpha. */
  lemma {:induction false} SimplexVertex(n: nat, j: nat, alpha: real)
    requires j < n && alpha > 0.0
    ensures Contains(Simplex(alpha), Vertex(n, j, alpha))
  {
    SumSingle(Vertex(n, j, alpha), j);
  }

  /** The vertices r e_j and -r e_j lie in the L1 ball of radius r at the origin. */
  lemma {:induction false} Ball1Vertex(n: nat, j: nat, s: real, r: real)
    requires j < n && r > 0.0 && (s == r || s == -r)
    ensures Contains(Ball1(None, r), Vertex(n, j, s))
  {
    var v := Vertex(n, j, s);
    assert Sub(v, CenterOf(None, n)) == v;
    SumSingle(AbsAll(v), j);
  }

  /**
   * The optimality condition at coordinate j for a vertex s e_j:
   * s (x_j - p_j) - <x, p> + |p|^2 <= 0.
   */
  predicate VertexGap(x: seq<real>, p: seq<real>, j: nat, s: real)
    requires |x| == |p| && j < |x|
  {
    s * (x[j] - p[j]) - Dot(x, p) + NormSq(p) <= 0.0
  }

  /** The variational inequality at the vertex s e_j, coordinate by coordinate. */
  lemma {:induction false} VertexAlgebra(x: seq<real>, p: seq<real>, j: nat, s: real)
    requires |x| == |p| && j < |x|
    requires Dot(x, Vertex(|x|, j, s)) - Dot(p, Vertex(|x|, j, s)) <= Dot(x, p) - NormSq(p)
    ensures VertexGap(x, p, j, s)
  {
    DotVertex(x, j, s);
    DotVertex(p, j, s);
    MulDist(s, x[j], p[j]);
  }

  /**
   * The variational inequality at a vertex s e_j of a set reported convex:
   * s (x_j - p_j) - <x, p> + |p|^2 <= 0 for the projection p of x.
   */
  lemma {:induction false} VertexCondition(c: Constraint, x: seq<real>, j: nat, s: real)
    requires WellFormed(c) && Fits(c, |x|) && IsConvex(c) && j < |x|
    requires Contains(c, Vertex(|x|, j, s))
    ensures VertexGap(x, Proj(c, x), j, s)
  {
    var p := Proj(c, x);
    ProjectionVariational(c, x, Vertex(|x|, j, s));
    VertexAlgebra(x, p, j, s);
  }

  /**
   * The optimality condition checked for the simplex projection p of x at every
   * coordinate j: alpha (x_j - p_j) - <p, x> + |p|^2 <= 0, the variational
   * inequality at the vertex alpha e_j.
   */
  lemma {:induction false} SimplexOptimality(x: seq<real>, alpha: real, j: nat)
    requires alpha > 0.0 && j < |x|
    ensures var p := Proj(Simplex(alpha), x); alpha * (x[j] - p[j]) - Dot(p, x) + NormSq(p) <= 0.0
  {
    var p := Proj(Simplex(alpha), x);
    SimplexVertex(|x|, j, alpha);
    VertexCondition(Simplex(alpha), x, j, alpha);
    VertexGapSym(x, p, j, alpha);
  }

  /** VertexGap with the inner product written <p, x>. */
  lemma {:induction false} VertexGapSym(x: seq<real>, p: seq<real>, j: nat, s: real)
    requires |x| == |p| && j < |x| && VertexGap(x, p, j, s)
    ensures s * (x[j] - p[j]) - Dot(p, x) + NormSq(p) <= 0.0
  {
    DotSym(p, x);
  }

  /**
   * The two optimality conditions checked for the projection p of x onto the L1
   * ball of radius r at every coordinate j: +-r (x_j - p_j) - <x, p> + |p|^2 <= 0,
   * the variational inequality at the vertices r e_j and -r e_j.
   */
  lemma {:induction false} Ball1Optimality(x: seq<real>, r: real, j: nat)
    requires r > 0.0 && j < |x|
    ensures VertexGap(x, Proj(Ball1(None, r), x), j, r)
    ensures VertexGap(x, Proj(Ball1(None, r), x), j, -r)
  {
    Ball1Vertex(|x|, j, r, r);
    VertexCondition(Ball1(None, r), x, j, r);
    Ball1Vertex(|x|, j, -r, r);
    VertexCondition(Ball1(None, r), x, j, -r);
  }
}
