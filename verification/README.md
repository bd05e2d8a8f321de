# Euclidean projections onto constraint sets, in Dafny

This project models the constraint-set layer of the optimization-engine solver.
Each constraint describes a set C of vectors. Projecting a buffer x onto C
overwrites x in place with the point of C nearest to x, in Euclidean distance.
A Cartesian product cuts the buffer into consecutive blocks and projects each
block onto its own set.

Vectors are sequences of exact `real`s. Each projection is defined once, as a
function of the buffer's contents (`Projections.Proj`). The in-place array
methods are proved to leave exactly that value in the buffer. The value itself
is proved to be the nearest point of the set.

Modules:

- `Vectors`: sums, pointwise maps, inner products, squared distances, the ℓ1 norm, and the small arithmetic lemmas the proofs use.
- `ConstraintSets`: the constraint catalogue, plus:
  - the validating constructors (`new` in the library, which panics on bad parameters; here a `Result`);
  - the dimension a constraint accepts (`Fits`);
  - set membership (`Contains`);
  - what `is_convex()` reports (`IsConvex`).
- `WaterFilling`: the threshold behind the simplex and ℓ1-ball projections, found by an active-set iteration.
- `Projections`: the projection of every catalogue set, as functions.
- `Optimality`: what the projection guarantees:
  - the result is a member of the set;
  - it is the nearest member;
  - the obtuse-angle inequality and the variational inequality hold for sets reported convex;
  - members are fixed points, and projecting is idempotent;
  - the projection is unique for convex sets;
  - what `is_convex()` reports is sound.
- `InPlace`: one imperative method per constraint, working on a slice `a[lo..hi]` of an array, with loops and their invariants. Also `ProjectSlice` and `Project`, which dispatch on the constraint and refuse a buffer of the wrong length.
- `Cartesian`: the product, described by value as end indices plus constraints, with its projection and theorems. Also the builder class `CartesianProduct`, with `add_constraint`, `dimension`, `is_convex` and the in-place `project`.
- `Examples`: the worked cases of the library's test suite, stated as lemmas about `Proj` and as methods on `CartesianProduct`.

The library panics on a bad constructor argument and on a buffer of the wrong length. Here those cases return:

- `Failure(error)` from the constructors;
- `false` from the projection methods. A single constraint leaves the buffer untouched. A product leaves it untouched when its length is not the dimension. When a block cannot take its slice, the product stops there, after the earlier blocks have been projected.

## Model

| member | source | states |
|---|---|---|
| ConstraintSets.NewZero | src/constraints/tests.rs:6-18 | Zero::new always succeeds |
| ConstraintSets.NewNoConstraints | src/constraints/tests.rs:309-316 | NoConstraints::new always succeeds |
| ConstraintSets.NewHyperplane | src/constraints/tests.rs:21-39 | accepted exactly when the normal vector has a non-zero entry; an all-zero normal fails with ZeroNormal |
| ConstraintSets.NewHalfspace | src/constraints/tests.rs:42-73 | accepted exactly when the normal vector has a non-zero entry or the offset is non-negative; an all-zero normal with a negative offset fails with ZeroNormal (see Left out) |
| ConstraintSets.NewRectangle | src/constraints/tests.rs:171-175 | either bound may be absent; with both present, bound vectors of different lengths fail with DimensionMismatch, and accepted means well formed |
| ConstraintSets.NewBallInf | src/constraints/tests.rs:539-585 | accepted exactly for a positive radius |
| ConstraintSets.NewBall1 | src/constraints/tests.rs:873-875 | accepted exactly for a positive radius; a negative radius fails with NonPositive |
| ConstraintSets.NewSimplex | src/constraints/tests.rs:721-729 | accepted exactly for alpha > 0; alpha 0 or -1 fails with NonPositive |
| ConstraintSets.NewFiniteSet | src/constraints/tests.rs:77-89 | an empty list fails with EmptyData; points of unequal lengths fail with DimensionMismatch; accepted exactly when well formed |
| ConstraintSets.CenterOf | src/constraints/tests.rs:539-552 | a ball without a center is centred at the origin, of the buffer's length |
| WaterFilling.Threshold | src/constraints/tests.rs:653-665 | from any mask satisfying the iteration invariant, soft-thresholding x at the level reached sums to alpha |
| WaterFilling.SimplexThreshold | src/constraints/tests.rs:653-690 | soft-thresholding x at the simplex threshold sums to alpha |
| WaterFilling.PruneStep | src/constraints/tests.rs:668-690 | a round that drops coordinates keeps the invariant, strictly shrinks the active set and never lowers the level |
| WaterFilling.FixpointSum | src/constraints/tests.rs:653-665 | at a fixed point of the iteration, soft-thresholding at the level sums to alpha |
| Optimality.RectangleProjClips | src/constraints/tests.rs:134-227 | in a well-formed box each projected coordinate lies within the bounds present for it; a coordinate already within them is unchanged; one below its lower bound becomes that bound, one above its upper bound becomes that bound |
| Optimality.BallInfProjClips | src/constraints/tests.rs:539-585 | for r > 0 each projected coordinate lies within r of the center's; a coordinate already within r is unchanged; one farther out lands on the face c_i + r or c_i - r on its side |
| Optimality.SignRestoreAbs | src/constraints/tests.rs:732-777 | with non-negative magnitudes q, the result has absolute values exactly q and each coordinate agrees in sign with x (their product is non-negative) |
| Projections.NearestIndex | src/constraints/tests.rs:92-131 | the selected point is no farther from x than any listed point, and every earlier point is strictly farther (the first of equally near points wins) |
| Projections.NearestAmong | src/constraints/tests.rs:92-131 | among the first n points, the selected one is nearest, and every earlier one is strictly farther |
| Projections.Proj | src/constraints/tests.rs:6-316 | the projection has the buffer's length; the sections below state its properties |
| Optimality.ProjectionInSet | src/constraints/tests.rs:780-805 | the projection lies in the set for every constraint (for example, the ℓ1 ball about a center contains the projection) |
| Optimality.ProjectionIsNearest | src/constraints/tests.rs:92-131 | no member of the set is nearer to x than its projection, for every constraint, convex or not |
| Optimality.ProjectionObtuse | src/constraints/tests.rs:693-717 | for sets reported convex, \|x - y\|^2 >= \|x - p\|^2 + \|p - y\|^2 for every member y |
| Optimality.ProjectionVariational | src/constraints/tests.rs:693-777 | for sets reported convex, <x - p, y - p> <= 0 for every member y |
| Optimality.SimplexOptimality | src/constraints/tests.rs:693-717 | alpha (x_j - p_j) - <p, x> + \|p\|^2 <= 0 at every coordinate j: the condition the random simplex test checks |
| Optimality.Ball1Optimality | src/constraints/tests.rs:732-777 | ±r (x_j - p_j) - <x, p> + \|p\|^2 <= 0 at every coordinate j: the two conditions the random ℓ1-ball test checks |
| Optimality.VertexCondition | src/constraints/tests.rs:693-777 | the same condition at any vertex s e_j that belongs to a set reported convex |
| Optimality.SimplexVertex | src/constraints/tests.rs:693-717 | alpha e_j lies in the simplex of size alpha |
| Optimality.Ball1Vertex | src/constraints/tests.rs:732-777 | r e_j and -r e_j lie in the ℓ1 ball of radius r |
| Optimality.ProjectionFixesMembers | src/constraints/tests.rs:42-56 | a member of the set is left unchanged (as a halfspace leaves a point inside it) |
| Optimality.ProjectionIdempotent | src/constraints/tests.rs:6-316 | projecting a projection changes nothing |
| Optimality.ProjectionUnique | src/constraints/tests.rs:693-777 | for a set reported convex, a member as near to x as the projection is the projection |
| Optimality.ConvexWhenReported | src/constraints/tests.rs:588-650 | when is_convex() says convex, every point of the segment between two members is a member |
| Optimality.HyperplaneOnPlane | src/constraints/tests.rs:21-39 | the hyperplane projection satisfies <a, p> == b |
| Optimality.Ball1AtOriginNorm | src/constraints/tests.rs:732-777 | the ℓ1-ball projection at the origin has ℓ1 norm at most r, and exactly r when x lies outside the ball |
| InPlace.InnerProduct | src/constraints/tests.rs:693-717 | the loop computes <u, v> |
| InPlace.SquaredDistance | src/constraints/tests.rs:92-131 | the loop computes \|u - v\|^2 |
| InPlace.L1Distance | src/constraints/tests.rs:780-805 | the loop computes \|u - v\|_1 |
| InPlace.ComputeLevel | src/constraints/tests.rs:653-690 | the loop computes the level of the active coordinates of the slice |
| InPlace.PruneMask | src/constraints/tests.rs:653-690 | the loop computes the pruned mask and reports whether it changed |
| InPlace.ProjectZero | src/constraints/tests.rs:6-18 | the slice becomes its projection onto {0}; the rest of the array is unchanged |
| InPlace.ProjectHyperplane | src/constraints/tests.rs:21-39 | the slice becomes its hyperplane projection; the rest is unchanged |
| InPlace.ProjectHalfspace | src/constraints/tests.rs:42-73 | the slice becomes its halfspace projection, unchanged when already inside; the rest is unchanged |
| InPlace.ProjectRectangle | src/constraints/tests.rs:134-227 | the slice becomes its rectangle projection; the rest is unchanged |
| InPlace.ProjectBallInf | src/constraints/tests.rs:539-585 | the slice becomes its infinity-ball projection; the rest is unchanged |
| InPlace.ProjectSimplex | src/constraints/tests.rs:653-717 | the slice becomes its simplex projection: the active-set loop reaches the simplex threshold and then soft-thresholds; the rest is unchanged |
| InPlace.ProjectBall1 | src/constraints/tests.rs:732-805 | the slice becomes its ℓ1-ball projection: unchanged inside the ball, otherwise the magnitudes are projected onto the simplex and the signs restored; the rest is unchanged |
| InPlace.ProjectFiniteSet | src/constraints/tests.rs:92-131 | the slice becomes the first nearest listed point; the rest is unchanged |
| InPlace.NearestPoint | src/constraints/tests.rs:92-131 | the scan keeps the first strictly nearest point and returns NearestIndex |
| InPlace.ProjectSlice | src/constraints/tests.rs:330-338 | succeeds exactly when the constraint accepts the slice's length; then the slice becomes its projection; otherwise nothing changes |
| InPlace.Project | src/constraints/tests.rs:6-316 | succeeds exactly when the constraint accepts the buffer's length; then the buffer becomes Proj of its old contents; otherwise nothing changes |
| Cartesian.AllConvex | src/constraints/tests.rs:629-642 | true exactly when every block reports itself convex |
| Cartesian.FitCount | src/constraints/tests.rs:330-338 | the leading run of blocks that can take their slices, and the first block that cannot |
| Cartesian.ProductProjBlock | src/constraints/tests.rs:360-403 | each block of the product projection is the block's own projection of the same block of x, independently of the other blocks |
| Cartesian.IncreasingPairs | src/constraints/tests.rs:320-326 | end indices accepted one at a time are pairwise strictly increasing and positive |
| Cartesian.PairsIncreasing | src/constraints/tests.rs:320-326 | pairwise strictly increasing positive end indices are accepted one at a time |
| Cartesian.ApplyBlocksNext | src/constraints/tests.rs:360-403 | projecting block k overwrites exactly block k with the projection of its current contents |
| Cartesian.ApplyBlocksBlock | src/constraints/tests.rs:360-403 | once block j has been projected, projecting later blocks leaves it as it is |
| Cartesian.ApplyBlocksImage | src/constraints/tests.rs:360-403 | block k, once projected, holds the projection of the same block of the original x |
| Cartesian.ApplyBlocksTail | src/constraints/tests.rs:360-403 | after k blocks, everything beyond block k is untouched |
| Cartesian.ProductInSet | src/constraints/tests.rs:341-357 | the product projection lies in the product |
| Cartesian.ProductIsNearest | src/constraints/tests.rs:341-403 | no member of the product is nearer to x than its projection |
| Cartesian.ProductFixesMembers | src/constraints/tests.rs:507-536 | members of the product are left unchanged |
| Cartesian.ProductIdempotent | src/constraints/tests.rs:341-403 | projecting onto the product twice is projecting once |
| Cartesian.ProductConvex | src/constraints/tests.rs:629-642 | with every block reported convex, the product is convex |
| Cartesian.ProjectBlocks | src/constraints/tests.rs:330-403 | the loop projects block after block; it succeeds exactly when every block fits; the buffer holds the first FitCount blocks projected |
| Cartesian.CartesianProduct.constructor | src/constraints/tests.rs:320-326 | new() has no blocks |
| Cartesian.CartesianProduct.WithCapacity | src/constraints/tests.rs:507-518 | new_with_capacity(n) has no blocks |
| Cartesian.CartesianProduct.Dimension | src/constraints/tests.rs:467-478 | the last end index (0 when empty), which bounds every end index |
| Cartesian.CartesianProduct.IsConvex | src/constraints/tests.rs:629-642 | true exactly when every block reports itself convex |
| Cartesian.CartesianProduct.AddConstraint | src/constraints/tests.rs:320-326 | accepted exactly when the end index exceeds the current dimension; then the block is appended; otherwise nothing changes |
| Cartesian.CartesianProduct.Project | src/constraints/tests.rs:330-403 | succeeds exactly when the buffer has the dimension's length and every block fits; then the buffer becomes the product projection; a wrong length leaves it unchanged |
| Examples.ZeroExample | src/constraints/tests.rs:6-18 | [1, 2, 3] goes to [0, 0, 0] |
| Examples.NoConstraintsExample | src/constraints/tests.rs:309-316 | the whole space leaves x = [1, 2, 3] unchanged |
| Examples.HyperplaneExample | src/constraints/tests.rs:21-39 | [-1, 3, 5] goes to [-33/14, 4/14, 13/14] |
| Examples.HalfspaceInsideExample | src/constraints/tests.rs:42-56 | a point inside the halfspace is unchanged |
| Examples.HalfspaceOutsideExample | src/constraints/tests.rs:59-73 | [-1, 3] goes to [-1.8, 1.4] |
| Examples.FiniteSetRefusedExample | src/constraints/tests.rs:77-89 | empty data and inconsistent dimensions are refused |
| Examples.FiniteSetExample1 | src/constraints/tests.rs:92-131 | [0.7, 0.6] goes to [1, 1] |
| Examples.FiniteSetExample2 | src/constraints/tests.rs:92-131 | [-0.1, 0.2] goes to [0, 0] |
| Examples.FiniteSetExample3 | src/constraints/tests.rs:92-131 | [0.48, 0.501] goes to [0, 1] |
| Examples.FiniteSetExample4 | src/constraints/tests.rs:92-131 | [0.7, 0.2] goes to [1, 0] |
| Examples.RectangleBoundedExample | src/constraints/tests.rs:134-149 | [1..5] is clipped into [2, 4.5] |
| Examples.RectangleInfiniteBoundsExample | src/constraints/tests.rs:152-167 | infinite bounds do not clip |
| Examples.RectangleMismatchExample | src/constraints/tests.rs:171-175 | five lower bounds and four upper bounds are refused with DimensionMismatch |
| Examples.RectangleNegativeExample | src/constraints/tests.rs:178-193 | the eleven-coordinate box with negative, degenerate (xmin = xmax = 0) and wide bounds is well formed and clips x to the expected point |
| Examples.RectangleOnlyMinExample | src/constraints/tests.rs:196-210 | only a lower bound |
| Examples.RectangleOnlyMaxExample | src/constraints/tests.rs:213-227 | only an upper bound |
| Examples.BallInfOriginExample | src/constraints/tests.rs:539-552 | the unit infinity ball at the origin |
| Examples.BallInfCenterOutsideExample1 | src/constraints/tests.rs:555-585 | [11, -0.5], [3, -7] and [800, -5] go to [6.5, -4.5], [3.5, -7] and [6.5, -5]: each coordinate is clipped to within 1.5 of the center [5, -6] |
| Examples.BallInfCenterOutsideExample2 | src/constraints/tests.rs:555-585 | [9, -10] and [3, 0] go to the corners [6.5, -7.5] and [3.5, -4.5] |
| Examples.BallInfCenterInsideExample | src/constraints/tests.rs:555-585 | points inside the centred ball, the center included, are unchanged |
| Examples.SimplexExample | src/constraints/tests.rs:653-665 | [1, 2, 3] onto the simplex of size 3 is [0, 1, 2], whose sum is 3 |
| Examples.Ball1Example | src/constraints/tests.rs:732-777 | [1, 1, 1] onto the unit ℓ1 ball is [1/3, 1/3, 1/3] |
| Examples.NonPositiveRefusedExample | src/constraints/tests.rs:721-729 | simplex sizes 0 and -1 and the ℓ1 radius -1 are refused |
| Examples.IsConvexExamples | src/constraints/tests.rs:588-650 | the is_convex() answers for the infinity ball, zero, halfspace, hyperplane and the two finite sets |
| Examples.IncoherentIndicesExample | src/constraints/tests.rs:320-326 | end index 2 after 3 is refused |
| Examples.WrongVectorDimExample | src/constraints/tests.rs:330-338 | a buffer of length 30 for dimension 10 is refused and left unchanged |
| Examples.BallAndRectangleProj | src/constraints/tests.rs:360-403 | box, ball and box blocks are each clipped on their own |
| Examples.BallAndRectangleExample | src/constraints/tests.rs:360-403 | the same through add_constraint and the in-place project |
| Examples.DiagonalNear | src/constraints/tests.rs:467-504 | [-0.5, 1.1] goes to the nearer corner [0, 0] |
| Examples.DiagonalTie | src/constraints/tests.rs:467-504 | [0.45, 0.55], equally near both corners over exact reals, goes to the first listed one |
| Examples.DimensionProj | src/constraints/tests.rs:467-504 | the four-block product of dimension 10, over exact reals (see Left out) |
| Examples.DimensionExample | src/constraints/tests.rs:467-504 | dimension() is 10 and the in-place project gives the same result |
| Examples.NoConstraintProj | src/constraints/tests.rs:507-536 | unconstrained blocks are left unchanged around a projected ball block |
| Examples.NoConstraintExample | src/constraints/tests.rs:507-536 | dimension() is 9 and the in-place project gives the same result |
| Examples.IsConvexProductExample | src/constraints/tests.rs:629-642 | the product is convex until a finite set of two points is added |

## Left out

- Only the test suite, src/constraints/tests.rs, is available. The projector implementations and the Cartesian product's code are not part of this model. Behaviour is taken from what the tests require, and the algorithms are those the tests' expected values pin down. Where the tests leave a constructor's error cases open, the model makes a choice, listed below.
- ConstraintSets.NewHalfspace: the model refuses only an all-zero normal with a negative offset, whose set is empty and whose projection would divide by zero. An all-zero normal with a non-negative offset is the whole space and is accepted. No test covers either case, so what the library does there is not pinned down. `HalfspaceZeroNormalExample` shows both cases.
- ConstraintSets.NewRectangle: refusing xmin_i > xmax_i with EmptyBox is a modelling choice. Accepting a box with neither bound, `Rectangle(None, None)`, which describes the whole space, is another. The tests construct neither box, so the library's behaviour there is not pinned down.
- ConstraintSets.NewBall1: a radius of exactly 0 is refused as non-positive. The tests cover only the radius -1, so whether the library accepts 0 is not pinned down.
- Ball2, Sphere2, SecondOrderCone and AffineSpace are not modelled. They need square roots or a matrix factorization.
- Cartesian-product tests that use a Ball2 block are modelled with another block in its place:
  - an ℓ1 ball or an infinity ball in `IncoherentIndicesExample`, `WrongVectorDimExample`, `BallAndRectangleExample`, `NoConstraintExample` and `IsConvexProductExample`;
  - the ℓ1 ball of radius 1 in `DimensionExample`.
- Floating point is not modelled; all arithmetic is exact over the reals. The tests compare with tolerances, and the model states exact equalities.
- Examples.DimensionProj: in the four-block dimension test, the block [0.45, 0.55] is equally near, over exact reals, to the listed points [0, 0] and [1, 1]. The first listed point wins the tie, so the model gives [0, 0]. The test expects [1, 1], which depends on how f64 rounds 0.45 and 0.55.
- The simplex threshold is found by an active-set iteration. It drops coordinates at or below the current level until none drops. Any exact method, including a sort-based search, yields the same unique projection, so this choice does not change the result.
- Randomised tests are not modelled as such. Their checks are proved for all inputs:
  - the sum equals alpha and the entries are non-negative: `ProjectionInSet`;
  - the optimality conditions: `SimplexOptimality` and `Ball1Optimality`;
  - the ℓ1 norm is at most the radius: `ProjectionInSet`.
- Cartesian.CartesianProduct.WithCapacity: the capacity only reserves storage, so it has no observable effect in the model.
- A block whose constraint rejects its slice length makes the library panic partway through a product projection. Here `Project` returns `false`, and the blocks before the failing one have already been projected.
- A CartesianProduct nested as a block of another product is not modelled; a block is one catalogue constraint.
