/**
 * The library's worked examples, stated over exact reals: each lemma fixes a
 * constraint and an input and proves the projection the library returns for it.
 */
module Examples {
  import opened Wrappers
  import opened Vectors
  import opened ConstraintSets
  import opened WaterFilling
  import opened Projections
  import opened Optimality
  import opened InPlace
  import Cartesian

  // ---------------------------------------------------------------------------
  // Sums of short literal vectors

  lemma {:induction false} Sum2(a: real, b: real)
    ensures Sum([a, b]) == a + b
  {
    assert [a][..0] == [];
    assert Sum([a]) == a;
    assert [a, b][..1] == [a];
  }

  lemma {:induction false} Sum3(a: real, b: real, c: real)
    ensures Sum([a, b, c]) == a + b + c
  {
    assert [a, b, c][..2] == [a, b];
    Sum2(a, b);
  }

  lemma {:induction false} SqDist2(a: real, b: real, c: real, d: real)
    ensures SqDist([a, b], [c, d]) == (a - c) * (a - c) + (b - d) * (b - d)
  {
    assert SqDiffs([a, b], [c, d]) == [Sq(a - c), Sq(b - d)];
    Sum2(Sq(a - c), Sq(b - d));
  }

  /** Squared distances from x to the four corners of the unit square. */
  lemma {:induction false} CornerDistances(x0: real, x1: real)
    ensures SqDist([x0, x1], Corners()[0]) == x0 * x0 + x1 * x1
    ensures SqDist([x0, x1], Corners()[1]) == (x0 - 1.0) * (x0 - 1.0) + (x1 - 1.0) * (x1 - 1.0)
    ensures SqDist([x0, x1], Corners()[2]) == x0 * x0 + (x1 - 1.0) * (x1 - 1.0)
    ensures SqDist([x0, x1], Corners()[3]) == (x0 - 1.0) * (x0 - 1.0) + x1 * x1
  {
    SqDist2(x0, x1, 0.0, 0.0);
    SqDist2(x0, x1, 1.0, 1.0);
    SqDist2(x0, x1, 0.0, 1.0);
    SqDist2(x0, x1, 1.0, 0.0);
  }

  // ---------------------------------------------------------------------------
  // Zero, NoConstraints, Hyperplane, Halfspace

  /** Projecting [1, 2, 3] onto {0} gives the zero vector. */
  lemma {:induction false} ZeroExample()
    ensures Proj(Zero, [1.0, 2.0, 3.0]) == [0.0, 0.0, 0.0]
  {
  }

  /** The whole space leaves a point where it is. */
  lemma {:induction false} NoConstraintsExample()
    ensures Proj(NoConstraints, [1.0, 2.0, 3.0]) == [1.0, 2.0, 3.0]
  {
  }

  /** Hyperplane <[1, 2, 3], x> == 1 applied to [-1, 3, 5]: the step is 19/14. */
  lemma {:induction false} HyperplaneExample()
    ensures WellFormed(Hyperplane([1.0, 2.0, 3.0], 1.0))
    ensures Proj(Hyperplane([1.0, 2.0, 3.0], 1.0), [-1.0, 3.0, 5.0])
         == [-33.0 / 14.0, 4.0 / 14.0, 13.0 / 14.0]
  {
    var a, x := [1.0, 2.0, 3.0], [-1.0, 3.0, 5.0];
    assert a[0] != 0.0;
    assert Mul(a, x) == [-1.0, 6.0, 15.0];
    Sum3(-1.0, 6.0, 15.0);
    assert Mul(a, a) == [1.0, 4.0, 9.0];
    Sum3(1.0, 4.0, 9.0);
    assert Step(a, 1.0, x) == 19.0 / 14.0;
  }

  /** Halfspace <[1, 2], x> <= 5 holds at [-1, 3], which is left unchanged. */
  lemma {:induction false} HalfspaceInsideExample()
    ensures WellFormed(Halfspace([1.0, 2.0], 5.0))
    ensures Proj(Halfspace([1.0, 2.0], 5.0), [-1.0, 3.0]) == [-1.0, 3.0]
  {
    var a, x := [1.0, 2.0], [-1.0, 3.0];
    assert a[0] != 0.0;
    assert Mul(a, x) == [-1.0, 6.0];
    Sum2(-1.0, 6.0);
  }

  /** Halfspace <[1, 2], x> <= 1 fails at [-1, 3], which moves to [-1.8, 1.4] on the boundary. */
  lemma {:induction false} HalfspaceOutsideExample()
    ensures WellFormed(Halfspace([1.0, 2.0], 1.0))
    ensures Proj(Halfspace([1.0, 2.0], 1.0), [-1.0, 3.0]) == [-1.8, 1.4]
  {
    var a, x := [1.0, 2.0], [-1.0, 3.0];
    assert a[0] != 0.0;
    assert Mul(a, x) == [-1.0, 6.0];
    Sum2(-1.0, 6.0);
    assert Mul(a, a) == [1.0, 4.0];
    Sum2(1.0, 4.0);
    assert Step(a, 1.0, x) == 0.8;
  }

  /**
   * An all-zero normal: with offset 1 every point satisfies <0, x> <= 1, so the set is
   * the whole space and x stays; with offset -1 the set is empty and it is refused.
   */
  lemma {:induction false} HalfspaceZeroNormalExample()
    ensures NewHalfspace([0.0, 0.0], 1.0) == Success(Halfspace([0.0, 0.0], 1.0))
    ensures Proj(Halfspace([0.0, 0.0], 1.0), [-1.0, 3.0]) == [-1.0, 3.0]
    ensures NewHalfspace([0.0, 0.0], -1.0) == Failure(ZeroNormal)
  {
    var a, x := [0.0, 0.0], [-1.0, 3.0];
    assert Mul(a, x) == [0.0, 0.0];
    Sum2(0.0, 0.0);
  }

  // ---------------------------------------------------------------------------
  // Rectangle and BallInf

  /** Both bounds given: [1, 2, 3, 4, 5] clipped into [2, 4.5]. */
  lemma {:induction false} RectangleBoundedExample()
    ensures WellFormed(Rectangle(Some([Some(2.0), Some(2.0), Some(2.0), Some(2.0), Some(2.0)]),
                                 Some([Some(4.5), Some(4.5), Some(4.5), Some(4.5), Some(4.5)])))
    ensures Proj(Rectangle(Some([Some(2.0), Some(2.0), Some(2.0), Some(2.0), Some(2.0)]),
                           Some([Some(4.5), Some(4.5), Some(4.5), Some(4.5), Some(4.5)])),
                 [1.0, 2.0, 3.0, 4.0, 5.0])
         == [2.0, 2.0, 3.0, 4.0, 4.5]
  {
  }

  /** Infinite bounds are absent clamps: xmin = [-1, 2, -inf], xmax = [1, inf, 5]. */
  lemma {:induction false} RectangleInfiniteBoundsExample()
    ensures WellFormed(Rectangle(Some([Some(-1.0), Some(2.0), None]), Some([Some(1.0), None, Some(5.0)])))
    ensures Proj(Rectangle(Some([Some(-1.0), Some(2.0), None]), Some([Some(1.0), None, Some(5.0)])),
                 [-2.0, 3.0, 1.0])
         == [-1.0, 3.0, 1.0]
  {
  }

  /** Bound vectors of different lengths (five lower bounds 1, four upper bounds 2) are refused. */
  lemma {:induction false} RectangleMismatchExample()
    ensures NewRectangle(Some([Some(1.0), Some(1.0), Some(1.0), Some(1.0), Some(1.0)]),
                         Some([Some(2.0), Some(2.0), Some(2.0), Some(2.0)]))
         == Failure(DimensionMismatch)
  {
  }

  /**
   * Negative, degenerate (xmin = xmax = 0) and wide bounds in eleven coordinates:
   * xmin = [-5, -4, -3, -2, -1, 0, 1, 2, 3, 4, 5],
   * xmax = [-1, -2, -1, 2, 1, 0, 4, 6, 9, 100, 500].
   */
  lemma {:induction false} RectangleNegativeExample()
    ensures WellFormed(Rectangle(Some([Some(-5.0), Some(-4.0), Some(-3.0), Some(-2.0), Some(-1.0), Some(0.0),
                                       Some(1.0), Some(2.0), Some(3.0), Some(4.0), Some(5.0)]),
                                 Some([Some(-1.0), Some(-2.0), Some(-1.0), Some(2.0), Some(1.0), Some(0.0),
                                       Some(4.0), Some(6.0), Some(9.0), Some(100.0), Some(500.0)])))
    ensures Proj(Rectangle(Some([Some(-5.0), Some(-4.0), Some(-3.0), Some(-2.0), Some(-1.0), Some(0.0),
                                 Some(1.0), Some(2.0), Some(3.0), Some(4.0), Some(5.0)]),
                           Some([Some(-1.0), Some(-2.0), Some(-1.0), Some(2.0), Some(1.0), Some(0.0),
                                 Some(4.0), Some(6.0), Some(9.0), Some(100.0), Some(500.0)])),
                 [-6.0, -3.0, 0.0, 3.0, -5.0, 1.0, 2.0, 3.0, -1.0, 0.0, 0.0])
         == [-5.0, -3.0, -1.0, 2.0, -1.0, 0.0, 2.0, 3.0, 3.0, 4.0, 5.0]
  {
    var lo := [Some(-5.0), Some(-4.0), Some(-3.0), Some(-2.0), Some(-1.0), Some(0.0),
               Some(1.0), Some(2.0), Some(3.0), Some(4.0), Some(5.0)];
    var hi := [Some(-1.0), Some(-2.0), Some(-1.0), Some(2.0), Some(1.0), Some(0.0),
               Some(4.0), Some(6.0), Some(9.0), Some(100.0), Some(500.0)];
    var x := [-6.0, -3.0, 0.0, 3.0, -5.0, 1.0, 2.0, 3.0, -1.0, 0.0, 0.0];
    var e := [-5.0, -3.0, -1.0, 2.0, -1.0, 0.0, 2.0, 3.0, 3.0, 4.0, 5.0];
    var p := RectangleProj(Some(lo), Some(hi), x);
    forall i | 0 <= i < |x| ensures p[i] == e[i] {
      assert LowerAt(Some(lo), i) == lo[i] && UpperAt(Some(hi), i) == hi[i];
    }
  }

  /** Only a lower bound of 2. */
  lemma {:induction false} RectangleOnlyMinExample()
    ensures Proj(Rectangle(Some([Some(2.0), Some(2.0), Some(2.0), Some(2.0), Some(2.0)]), None),
                 [1.0, 2.0, 3.0, 4.0, 5.0])
         == [2.0, 2.0, 3.0, 4.0, 5.0]
  {
  }

  /** Only an upper bound of -3. */
  lemma {:induction false} RectangleOnlyMaxExample()
    ensures Proj(Rectangle(None, Some([Some(-3.0), Some(-3.0), Some(-3.0), Some(-3.0), Some(-3.0)])),
                 [-10.0, -20.0, 0.0, 5.0, 3.0])
         == [-10.0, -20.0, -3.0, -3.0, -3.0]
  {
  }

  /** The unit infinity ball at the origin clips every coordinate into [-1, 1]. */
  lemma {:induction false} BallInfOriginExample()
    ensures Proj(BallInf(None, 1.0), [0.0, -0.5, 0.5, 1.5, 3.5, 0.8, 1.1, -5.0, -10.0])
         == [0.0, -0.5, 0.5, 1.0, 1.0, 0.8, 1.0, -1.0, -1.0]
  {
  }

  /** The infinity ball of radius 1.5 around [5, -6], approached from outside. */
  lemma {:induction false} BallInfCenterOutsideExample1()
    ensures Proj(BallInf(Some([5.0, -6.0]), 1.5), [11.0, -0.5]) == [6.5, -4.5]
    ensures Proj(BallInf(Some([5.0, -6.0]), 1.5), [3.0, -7.0]) == [3.5, -7.0]
    ensures Proj(BallInf(Some([5.0, -6.0]), 1.5), [800.0, -5.0]) == [6.5, -5.0]
  {
  }

  /** The same ball, approached from outside towards two of its corners. */
  lemma {:induction false} BallInfCenterOutsideExample2()
    ensures Proj(BallInf(Some([5.0, -6.0]), 1.5), [9.0, -10.0]) == [6.5, -7.5]
    ensures Proj(BallInf(Some([5.0, -6.0]), 1.5), [3.0, 0.0]) == [3.5, -4.5]
  {
  }

  /** Points inside the infinity ball of radius 1.5 around [5, -6], its centre included, stay put. */
  lemma {:induction false} BallInfCenterInsideExample()
    ensures Proj(BallInf(Some([5.0, -6.0]), 1.5), [6.0, -5.0]) == [6.0, -5.0]
    ensures Proj(BallInf(Some([5.0, -6.0]), 1.5), [5.0, -6.0]) == [5.0, -6.0]
  {
  }

  // ---------------------------------------------------------------------------
  // Finite sets

  /** The four corners of the unit square. */
  function Corners(): (points: seq<seq<real>>)
    ensures WellFormed(FiniteSet(points)) && |points| == 4
  {
    [[0.0, 0.0], [1.0, 1.0], [0.0, 1.0], [1.0, 0.0]]
  }

  /** A finite set with no points, or with points of different lengths, is refused. */
  lemma {:induction false} FiniteSetRefusedExample()
    ensures NewFiniteSet([]) == Failure(EmptyData)
    ensures NewFiniteSet([[1.0, 2.0], [1.0, 2.0, 3.0]]) == Failure(DimensionMismatch)
  {
    var bad := [[1.0, 2.0], [1.0, 2.0, 3.0]];
    assert |bad[1]| != |bad[0]|;
  }

  /** Nearest corner to [0.7, 0.6] is [1, 1]. */
  lemma {:induction false} FiniteSetExample1()
    ensures Proj(FiniteSet(Corners()), [0.7, 0.6]) == [1.0, 1.0]
  {
    CornerDistances(0.7, 0.6);
    NearestIs(Corners(), [0.7, 0.6], 1);
  }

  /** Nearest corner to [-0.1, 0.2] is [0, 0]. */
  lemma {:induction false} FiniteSetExample2()
    ensures Proj(FiniteSet(Corners()), [-0.1, 0.2]) == [0.0, 0.0]
  {
    CornerDistances(-0.1, 0.2);
    NearestIs(Corners(), [-0.1, 0.2], 0);
  }

  /** Nearest corner to [0.48, 0.501] is [0, 1]. */
  lemma {:induction false} FiniteSetExample3()
    ensures Proj(FiniteSet(Corners()), [0.48, 0.501]) == [0.0, 1.0]
  {
    CornerDistances(0.48, 0.501);
    NearestIs(Corners(), [0.48, 0.501], 2);
  }

  /** Nearest corner to [0.7, 0.2] is [1, 0]. */
  lemma {:induction false} FiniteSetExample4()
    ensures Proj(FiniteSet(Corners()), [0.7, 0.2]) == [1.0, 0.0]
  {
    CornerDistances(0.7, 0.2);
    NearestIs(Corners(), [0.7, 0.2], 3);
  }

  /** A point strictly nearer than every other listed point is the one selected. */
  lemma {:induction false} NearestIs(points: seq<seq<real>>, x: seq<real>, j: nat)
    requires |points| > 0 && SameLength(points, |x|) && j < |points|
    requires forall k :: 0 <= k < |points| && k != j ==> SqDist(x, points[j]) < SqDist(x, points[k])
    ensures NearestIndex(points, x) == j
  {
  }
  // ---------------------------------------------------------------------------
  // Simplex and Ball1

  lemma {:induction false} Active3(x0: real, x1: real, x2: real, m0: bool, m1: bool, m2: bool)
    ensures ActiveSum([x0, x1, x2], [m0, m1, m2])
         == (if m0 then x0 else 0.0) + (if m1 then x1 else 0.0) + (if m2 then x2 else 0.0)
    ensures ActiveCount([m0, m1, m2]) == (if m0 then 1 else 0) + (if m1 then 1 else 0) + (if m2 then 1 else 0)
  {
    assert [x0][..0] == [] && [m0][..0] == [];
    assert ActiveSum([x0], [m0]) == (if m0 then x0 else 0.0);
    assert ActiveCount([m0]) == (if m0 then 1 else 0);
    assert [x0, x1][..1] == [x0] && [m0, m1][..1] == [m0];
    assert ActiveSum([x0, x1], [m0, m1]) == (if m0 then x0 else 0.0) + (if m1 then x1 else 0.0);
    assert ActiveCount([m0, m1]) == (if m0 then 1 else 0) + (if m1 then 1 else 0);
    assert [x0, x1, x2][..2] == [x0, x1] && [m0, m1, m2][..2] == [m0, m1];
  }

  /**
   * The simplex of size 3 applied to [1, 2, 3]: the first round's level 1 drops the
   * first coordinate, the second round's level is 1 again, so the result is [0, 1, 2]
   * (whose entries sum to 3).
   */
  lemma {:induction false} SimplexExample()
    ensures Proj(Simplex(3.0), [1.0, 2.0, 3.0]) == [0.0, 1.0, 2.0]
  {
    var x, alpha := [1.0, 2.0, 3.0], 3.0;
    var m0 := AllActive(3);
    assert m0 == [true, true, true];
    Active3(1.0, 2.0, 3.0, true, true, true);
    assert Level(x, m0, alpha) == 1.0;
    assert Inv(x, m0, alpha);
    var m1 := Prune(x, m0, 1.0);
    assert m1 == [false, true, true];
    ThresholdStep(x, m0, alpha);
    Active3(1.0, 2.0, 3.0, false, true, true);
    assert Level(x, m1, alpha) == 1.0;
    assert Prune(x, m1, 1.0) == m1;
    ThresholdFixed(x, m1, alpha);
    assert SimplexThreshold(x, alpha) == 1.0;
  }

  /**
   * The L1 ball of radius 1 applied to [1, 1, 1]: the magnitudes are projected onto
   * the simplex of size 1 at level 2/3, giving [1/3, 1/3, 1/3].
   */
  lemma {:induction false} Ball1Example()
    ensures Proj(Ball1(None, 1.0), [1.0, 1.0, 1.0]) == [1.0 / 3.0, 1.0 / 3.0, 1.0 / 3.0]
  {
    var x, r := [1.0, 1.0, 1.0], 1.0;
    assert Sub(x, Zeros(3)) == x;
    assert AbsAll(x) == x;
    Sum3(1.0, 1.0, 1.0);
    assert Norm1(x) == 3.0;
    var m0 := AllActive(3);
    assert m0 == [true, true, true];
    Active3(1.0, 1.0, 1.0, true, true, true);
    assert Level(x, m0, r) == 2.0 / 3.0;
    assert Inv(x, m0, r);
    assert Prune(x, m0, 2.0 / 3.0) == m0;
    ThresholdFixed(x, m0, r);
    assert SimplexThreshold(x, r) == 2.0 / 3.0;
    var q := SimplexProj(x, r);
    assert q == [1.0 / 3.0, 1.0 / 3.0, 1.0 / 3.0];
    assert Ball1AtOrigin(x, r) == q;
  }

  /** A simplex needs a positive size and an L1 ball a positive radius. */
  lemma {:induction false} NonPositiveRefusedExample()
    ensures NewSimplex(0.0) == Failure(NonPositive)
    ensures NewSimplex(-1.0) == Failure(NonPositive)
    ensures NewBall1(None, -1.0) == Failure(NonPositive)
  {
  }

  // ---------------------------------------------------------------------------
  // Convexity reports

  lemma {:induction false} IsConvexExamples()
    ensures IsConvex(BallInf(None, 1.5)) && IsConvex(Zero)
    ensures IsConvex(Halfspace([1.0, 2.0, 4.0], 1.0)) && IsConvex(Hyperplane([1.0, 2.0, 3.0], 1.0))
    ensures IsConvex(FiniteSet([[1.0, 2.0, 3.0]]))
    ensures !IsConvex(FiniteSet([[1.0, 2.0], [3.0, 4.0]]))
  {
  }
  // ---------------------------------------------------------------------------
  // Cartesian products

  /** An end index below the current dimension is refused. */
  method IncoherentIndicesExample() returns (first: bool, second: bool)
    ensures first && !second
  {
    var product := new Cartesian.CartesianProduct();
    first := product.AddConstraint(3, Ball1(None, 1.0));
    second := product.AddConstraint(2, Ball1(None, 0.5));
  }

  /** A buffer of length 30 does not fit a product of dimension 10 and is left alone. */
  method WrongVectorDimExample() returns (ok: bool, r: seq<real>)
    ensures !ok && r == Zeros(30)
  {
    var product := new Cartesian.CartesianProduct();
    var _ := product.AddConstraint(3, Ball1(None, 1.0));
    var _ := product.AddConstraint(10, Ball1(None, 0.5));
    var a := new real[30](i => 0.0);
    assert a[..] == Zeros(30);
    ok := product.Project(a);
    r := a[..];
  }

  /** A box [-c, c]^n given by both bounds. */
  function Box(n: nat, c: real): (r: Constraint)
    requires c >= 0.0
    ensures WellFormed(r)
  {
    Rectangle(Some(seq(n, i => Some(-c))), Some(seq(n, i => Some(c))))
  }

  /** A product of three blocks projects to the three block projections laid end to end. */
  lemma {:induction false} ThreeBlocks(ends: seq<nat>, blocks: seq<Constraint>, x: seq<real>, p0: seq<real>, p1: seq<real>, p2: seq<real>)
    requires Cartesian.ProductFits(ends, blocks, |x|) && |blocks| == 3
    requires Proj(blocks[0], Cartesian.Block(ends, x, 0)) == p0
    requires Proj(blocks[1], Cartesian.Block(ends, x, 1)) == p1
    requires Proj(blocks[2], Cartesian.Block(ends, x, 2)) == p2
    ensures Cartesian.ProductProj(ends, blocks, x) == p0 + p1 + p2
  {
    var p := Cartesian.ProductProj(ends, blocks, x);
    Cartesian.ProductProjBlock(ends, blocks, x, 0);
    Cartesian.ProductProjBlock(ends, blocks, x, 1);
    Cartesian.ProductProjBlock(ends, blocks, x, 2);
    Cartesian.BlockBounds(ends, 0);
    Cartesian.BlockBounds(ends, 1);
    Cartesian.BlockBounds(ends, 2);
    Split3(p, ends[0], ends[1], p0, p1, p2);
  }

  /** A sequence cut at e0 <= e1 is its three pieces laid end to end. */
  lemma {:induction false} Split3(p: seq<real>, e0: nat, e1: nat, p0: seq<real>, p1: seq<real>, p2: seq<real>)
    requires e0 <= e1 <= |p|
    requires p[..e0] == p0 && p[e0..e1] == p1 && p[e1..|p|] == p2
    ensures p == p0 + p1 + p2
  {
    assert p == p[..e0] + p[e0..e1] + p[e1..|p|];
  }

  lemma {:induction false} BallAndRectangleBlocks(blocks: seq<Constraint>, x0: seq<real>, x1: seq<real>, x2: seq<real>)
    requires blocks == [Box(3, 1.0), BallInf(None, 1.0), Box(2, 0.5)]
    requires x0 == [-10.0, 0.5, 10.0] && x1 == [0.01, -0.01, 0.1, 10.0] && x2 == [-1.0, 1.0]
    ensures Proj(blocks[0], x0) == [-1.0, 0.5, 1.0]
    ensures Proj(blocks[1], x1) == [0.01, -0.01, 0.1, 1.0]
    ensures Proj(blocks[2], x2) == [-0.5, 0.5]
  {
  }

  /**
   * Blocks [0, 3), [3, 7) and [7, 9) governed by a box of half-width 1, the infinity
   * ball of radius 1 and a box of half-width 0.5: each block is clipped on its own.
   */
  lemma {:induction false} BallAndRectangleProj(ends: seq<nat>, blocks: seq<Constraint>, x: seq<real>)
    requires ends == [3, 7, 9] && blocks == [Box(3, 1.0), BallInf(None, 1.0), Box(2, 0.5)]
    requires x == [-10.0, 0.5, 10.0, 0.01, -0.01, 0.1, 10.0, -1.0, 1.0]
    ensures Cartesian.ProductFits(ends, blocks, |x|)
    ensures Cartesian.ProductProj(ends, blocks, x) == [-1.0, 0.5, 1.0, 0.01, -0.01, 0.1, 1.0, -0.5, 0.5]
  {
    Cartesian.PairsIncreasing(ends);
    assert Cartesian.Layout(ends, blocks);
    assert Cartesian.ProductFits(ends, blocks, 9);
    assert Cartesian.Block(ends, x, 0) == [-10.0, 0.5, 10.0];
    assert Cartesian.Block(ends, x, 1) == [0.01, -0.01, 0.1, 10.0];
    assert Cartesian.Block(ends, x, 2) == [-1.0, 1.0];
    BallAndRectangleBlocks(blocks, Cartesian.Block(ends, x, 0), Cartesian.Block(ends, x, 1), Cartesian.Block(ends, x, 2));
    ThreeBlocks(ends, blocks, x, [-1.0, 0.5, 1.0], [0.01, -0.01, 0.1, 1.0], [-0.5, 0.5]);
    Concat3([-1.0, 0.5, 1.0], [0.01, -0.01, 0.1, 1.0], [-0.5, 0.5]);
  }

  lemma {:induction false} Concat3(a: seq<real>, b: seq<real>, c: seq<real>)
    requires |a| == 3 && |b| == 4 && |c| == 2
    ensures a + b + c == [a[0], a[1], a[2], b[0], b[1], b[2], b[3], c[0], c[1]]
  {
  }

  /** The product of BallAndRectangleProj, built with add_constraint. */
  method BallAndRectangleProduct() returns (product: Cartesian.CartesianProduct)
    ensures fresh(product) && product.Valid()
    ensures product.ends == [3, 7, 9] && product.blocks == [Box(3, 1.0), BallInf(None, 1.0), Box(2, 0.5)]
  {
    product := new Cartesian.CartesianProduct();
    var _ := product.AddConstraint(3, Box(3, 1.0));
    var _ := product.AddConstraint(7, BallInf(None, 1.0));
    var _ := product.AddConstraint(9, Box(2, 0.5));
  }

  /** The same product applied to a buffer in place. */
  method BallAndRectangleExample() returns (ok: bool, r: seq<real>)
    ensures ok && r == [-1.0, 0.5, 1.0, 0.01, -0.01, 0.1, 1.0, -0.5, 0.5]
  {
    var product := BallAndRectangleProduct();
    var a := new real[9] [-10.0, 0.5, 10.0, 0.01, -0.01, 0.1, 10.0, -1.0, 1.0];
    BallAndRectangleProj(product.ends, product.blocks, a[..]);
    ok := product.Project(a);
    r := a[..];
  }
  /** A product of four blocks projects to the four block projections laid end to end. */
  lemma {:induction false} FourBlocks(ends: seq<nat>, blocks: seq<Constraint>, x: seq<real>,
                   p0: seq<real>, p1: seq<real>, p2: seq<real>, p3: seq<real>)
    requires Cartesian.ProductFits(ends, blocks, |x|) && |blocks| == 4
    requires Proj(blocks[0], Cartesian.Block(ends, x, 0)) == p0
    requires Proj(blocks[1], Cartesian.Block(ends, x, 1)) == p1
    requires Proj(blocks[2], Cartesian.Block(ends, x, 2)) == p2
    requires Proj(blocks[3], Cartesian.Block(ends, x, 3)) == p3
    ensures Cartesian.ProductProj(ends, blocks, x) == p0 + p1 + p2 + p3
  {
    var p := Cartesian.ProductProj(ends, blocks, x);
    Cartesian.ProductProjBlock(ends, blocks, x, 0);
    Cartesian.ProductProjBlock(ends, blocks, x, 1);
    Cartesian.ProductProjBlock(ends, blocks, x, 2);
    Cartesian.ProductProjBlock(ends, blocks, x, 3);
    Cartesian.BlockBounds(ends, 0);
    Cartesian.BlockBounds(ends, 1);
    Cartesian.BlockBounds(ends, 2);
    Cartesian.BlockBounds(ends, 3);
    Split4(p, ends[0], ends[1], ends[2], p0, p1, p2, p3);
  }

  /** A sequence cut at e0 <= e1 <= e2 is its four pieces laid end to end. */
  lemma {:induction false} Split4(p: seq<real>, e0: nat, e1: nat, e2: nat,
                                  p0: seq<real>, p1: seq<real>, p2: seq<real>, p3: seq<real>)
    requires e0 <= e1 <= e2 <= |p|
    requires p[..e0] == p0 && p[e0..e1] == p1 && p[e1..e2] == p2 && p[e2..|p|] == p3
    ensures p == p0 + p1 + p2 + p3
  {
    assert p == p[..e0] + p[e0..e1] + p[e1..e2] + p[e2..|p|];
  }

  lemma {:induction false} Concat4(a: seq<real>, b: seq<real>, c: seq<real>, d: seq<real>)
    requires |a| == 2 && |b| == 2 && |c| == 3 && |d| == 3
    ensures a + b + c + d == [a[0], a[1], b[0], b[1], c[0], c[1], c[2], d[0], d[1], d[2]]
  {
  }

  /** The two opposite corners of the unit square. */
  function Diagonal(): (points: seq<seq<real>>)
    ensures WellFormed(FiniteSet(points)) && |points| == 2
  {
    [[0.0, 0.0], [1.0, 1.0]]
  }

  /** [-0.5, 1.1] is nearer to [0, 0] than to [1, 1]. */
  lemma {:induction false} DiagonalNear()
    ensures Proj(FiniteSet(Diagonal()), [-0.5, 1.1]) == [0.0, 0.0]
  {
    SqDist2(-0.5, 1.1, 0.0, 0.0);
    SqDist2(-0.5, 1.1, 1.0, 1.0);
    NearestIs(Diagonal(), [-0.5, 1.1], 0);
  }

  /**
   * Over exact reals [0.45, 0.55] is equally near to [0, 0] and [1, 1]
   * (squared distance 0.505 to each), and the first listed point wins the tie.
   */
  lemma {:induction false} DiagonalTie()
    ensures Proj(FiniteSet(Diagonal()), [0.45, 0.55]) == [0.0, 0.0]
  {
    SqDist2(0.45, 0.55, 0.0, 0.0);
    SqDist2(0.45, 0.55, 1.0, 1.0);
    assert NearestIndex(Diagonal(), [0.45, 0.55]) == 0;
  }

  /**
   * Blocks [0, 2) and [2, 4) on the two diagonal corners, [4, 7) unconstrained and
   * [7, 10) on the L1 ball of radius 1.
   */
  lemma {:induction false} DimensionProj(ends: seq<nat>, blocks: seq<Constraint>, x: seq<real>)
    requires ends == [2, 4, 7, 10]
    requires blocks == [FiniteSet(Diagonal()), FiniteSet(Diagonal()), NoConstraints, Ball1(None, 1.0)]
    requires x == [-0.5, 1.1, 0.45, 0.55, 10.0, 10.0, -500.0, 1.0, 1.0, 1.0]
    ensures Cartesian.ProductFits(ends, blocks, |x|)
    ensures Cartesian.ProductProj(ends, blocks, x)
         == [0.0, 0.0, 0.0, 0.0, 10.0, 10.0, -500.0, 1.0 / 3.0, 1.0 / 3.0, 1.0 / 3.0]
  {
    Cartesian.PairsIncreasing(ends);
    assert Cartesian.Layout(ends, blocks);
    assert Cartesian.ProductFits(ends, blocks, 10);
    assert Cartesian.Block(ends, x, 0) == [-0.5, 1.1];
    assert Cartesian.Block(ends, x, 1) == [0.45, 0.55];
    assert Cartesian.Block(ends, x, 2) == [10.0, 10.0, -500.0];
    assert Cartesian.Block(ends, x, 3) == [1.0, 1.0, 1.0];
    DiagonalNear();
    DiagonalTie();
    Ball1Example();
    var third := 1.0 / 3.0;
    FourBlocks(ends, blocks, x, [0.0, 0.0], [0.0, 0.0], [10.0, 10.0, -500.0], [third, third, third]);
    Concat4([0.0, 0.0], [0.0, 0.0], [10.0, 10.0, -500.0], [third, third, third]);
  }

  /** The product of DimensionProj, built with a capacity hint. */
  method DimensionProduct() returns (product: Cartesian.CartesianProduct)
    ensures fresh(product) && product.Valid() && product.ends == [2, 4, 7, 10]
    ensures product.blocks == [FiniteSet(Diagonal()), FiniteSet(Diagonal()), NoConstraints, Ball1(None, 1.0)]
  {
    product := new Cartesian.CartesianProduct.WithCapacity(4);
    var _ := product.AddConstraint(2, FiniteSet(Diagonal()));
    var _ := product.AddConstraint(4, FiniteSet(Diagonal()));
    var _ := product.AddConstraint(7, NoConstraints);
    var _ := product.AddConstraint(10, Ball1(None, 1.0));
  }

  /** The product of dimension 10 applied in place. */
  method DimensionExample() returns (d: nat, ok: bool, r: seq<real>)
    ensures d == 10 && ok
    ensures r == [0.0, 0.0, 0.0, 0.0, 10.0, 10.0, -500.0, 1.0 / 3.0, 1.0 / 3.0, 1.0 / 3.0]
  {
    var product := DimensionProduct();
    d := product.Dimension();
    var a := new real[10] [-0.5, 1.1, 0.45, 0.55, 10.0, 10.0, -500.0, 1.0, 1.0, 1.0];
    DimensionProj(product.ends, product.blocks, a[..]);
    ok := product.Project(a);
    r := a[..];
  }

  /**
   * Unconstrained blocks [0, 2), [5, 8) and [8, 9) around the infinity ball of
   * radius 1 centred at [1, 0, 0] on [2, 5): only the middle block moves.
   */
  lemma {:induction false} NoConstraintProj(ends: seq<nat>, blocks: seq<Constraint>, x: seq<real>)
    requires ends == [2, 5, 8, 9]
    requires blocks == [NoConstraints, BallInf(Some([1.0, 0.0, 0.0]), 1.0), NoConstraints, NoConstraints]
    requires x == [100.0, -200.0, 0.5, 1.5, 3.5, 1000.0, 5.0, -500.0, 2000000.0]
    ensures Cartesian.ProductFits(ends, blocks, |x|)
    ensures Cartesian.ProductProj(ends, blocks, x)
         == [100.0, -200.0, 0.5, 1.0, 1.0, 1000.0, 5.0, -500.0, 2000000.0]
  {
    Cartesian.PairsIncreasing(ends);
    assert Cartesian.Layout(ends, blocks);
    assert Cartesian.ProductFits(ends, blocks, 9);
    assert Cartesian.Block(ends, x, 0) == [100.0, -200.0];
    assert Cartesian.Block(ends, x, 1) == [0.5, 1.5, 3.5];
    assert Cartesian.Block(ends, x, 2) == [1000.0, 5.0, -500.0];
    assert Cartesian.Block(ends, x, 3) == [2000000.0];
    assert Proj(BallInf(Some([1.0, 0.0, 0.0]), 1.0), [0.5, 1.5, 3.5]) == [0.5, 1.0, 1.0];
    FourBlocks(ends, blocks, x, [100.0, -200.0], [0.5, 1.0, 1.0], [1000.0, 5.0, -500.0], [2000000.0]);
  }

  /** The product of NoConstraintProj, built with a capacity hint. */
  method NoConstraintProduct() returns (product: Cartesian.CartesianProduct)
    ensures fresh(product) && product.Valid() && product.ends == [2, 5, 8, 9]
    ensures product.blocks == [NoConstraints, BallInf(Some([1.0, 0.0, 0.0]), 1.0), NoConstraints, NoConstraints]
  {
    product := new Cartesian.CartesianProduct.WithCapacity(4);
    var _ := product.AddConstraint(2, NoConstraints);
    var _ := product.AddConstraint(5, BallInf(Some([1.0, 0.0, 0.0]), 1.0));
    var _ := product.AddConstraint(8, NoConstraints);
    var _ := product.AddConstraint(9, NoConstraints);
  }

  /** The same product applied in place: only the ball block moves. */
  method NoConstraintExample() returns (d: nat, ok: bool, r: seq<real>)
    ensures d == 9 && ok
    ensures r == [100.0, -200.0, 0.5, 1.0, 1.0, 1000.0, 5.0, -500.0, 2000000.0]
  {
    var product := NoConstraintProduct();
    d := product.Dimension();
    var a := new real[9] [100.0, -200.0, 0.5, 1.5, 3.5, 1000.0, 5.0, -500.0, 2000000.0];
    NoConstraintProj(product.ends, product.blocks, a[..]);
    ok := product.Project(a);
    r := a[..];
  }

  /**
   * A product of convex blocks reports itself convex until a finite set of two
   * points is added. (add_constraint does not compare a block with its slice: the
   * two-dimensional points sit on a block of length 1.)
   */
  method IsConvexProductExample() returns (before: bool, after: bool)
    ensures before && !after
  {
    var product := new Cartesian.CartesianProduct();
    var _ := product.AddConstraint(4, Ball1(None, 1.0));
    var _ := product.AddConstraint(6, BallInf(None, 1.5));
    var _ := product.AddConstraint(9, FiniteSet([[1.0, 2.0, 3.0]]));
    before := product.IsConvex();
    var _ := product.AddConstraint(10, FiniteSet([[1.0, 2.0], [3.0, 4.0]]));
    after := product.IsConvex();
  }
}
