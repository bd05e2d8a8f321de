/**
 * The Cartesian product of constraints. The buffer is cut into consecutive blocks
 * [0, e_0), [e_0, e_1), ... by strictly increasing end indices, and each block is
 * projected by its own constraint, independently of the others.
 *
 * The product is described first by value (the end indices and the constraints
 * as sequences) with its projection and its theorems; the builder object that the
 * library exposes, with add_constraint and the in-place project, is the class
 * CartesianProduct at the end.
 */
module Cartesian {
  import opened Vectors
  import opened ConstraintSets
  import opened Projections
  import opened Optimality
  import opened InPlace

  /** Where block k begins: the end of the previous block, 0 for the first. */
  function Start(ends: seq<nat>, k: nat): nat
    requires k <= |ends|
  {
    if k == 0 then 0 else ends[k - 1]
  }

  /**
   * The end indices are strictly increasing and the first block is not empty,
   * stated one end index at a time; IncreasingPairs and PairsIncreasing give the
   * pairwise reading.
   */
  predicate Increasing(ends: seq<nat>)
    decreases |ends|
  {
    if |ends| == 0 then true
    else if |ends| == 1 then ends[0] > 0
    else Increasing(ends[..|ends| - 1]) && ends[|ends| - 2] < ends[|ends| - 1]
  }

  /** Every end index is positive, and a later one is larger. */
  lemma {:induction false} IncreasingPairs(ends: seq<nat>, j: nat, k: nat)
    requires Increasing(ends) && j <= k < |ends|
    ensures 0 < ends[j] && (j < k ==> ends[j] < ends[k])
    decreases |ends|
  {
    var n := |ends|;
    if n > 1 {
      var init := ends[..n - 1];
      if k < n - 1 {
        IncreasingPairs(init, j, k);
        assert init[j] == ends[j] && init[k] == ends[k];
      } else if j < n - 1 {
        IncreasingPairs(init, j, n - 2);
        assert init[j] == ends[j] && init[n - 2] == ends[n - 2];
      } else {
        IncreasingPairs(init, n - 2, n - 2);
        assert init[n - 2] == ends[n - 2];
      }
    }
  }

  /** Conversely, positive and pairwise increasing end indices are Increasing. */
  lemma {:induction false} PairsIncreasing(ends: seq<nat>)
    requires |ends| > 0 ==> ends[0] > 0
    requires forall j, k :: 0 <= j < k < |ends| ==> ends[j] < ends[k]
    ensures Increasing(ends)
    decreases |ends|
  {
    var n := |ends|;
    if n > 1 {
      var init := ends[..n - 1];
      forall j, k | 0 <= j < k < |init| ensures init[j] < init[k] {
        assert init[j] == ends[j] && init[k] == ends[k];
      }
      PairsIncreasing(init);
      assert ends[n - 2] < ends[n - 1];
    }
  }

  /** The dimension of the product: the last end index, 0 when there are no blocks. */
  function Dim(ends: seq<nat>): nat
  {
    if |ends| == 0 then 0 else ends[|ends| - 1]
  }

  /** Blocks and end indices pair up, the ends increase, and every block passed its constructor. */
  predicate Layout(ends: seq<nat>, blocks: seq<Constraint>)
  {
    |ends| == |blocks| && Increasing(ends) &&
    forall k :: 0 <= k < |blocks| ==> WellFormed(blocks[k])
  }

  /** Every block lies within the product and is not empty. */
  lemma {:induction false} BlockBounds(ends: seq<nat>, k: nat)
    requires Increasing(ends) && k < |ends|
    ensures Start(ends, k) < ends[k] <= Dim(ends)
  {
    IncreasingPairs(ends, k, |ends| - 1);
    if k > 0 {
      IncreasingPairs(ends, k - 1, k);
    }
  }

  /** The length of block k. */
  function Width(ends: seq<nat>, k: nat): (w: nat)
    requires Increasing(ends) && k < |ends|
    ensures w > 0 && Start(ends, k) + w == ends[k] <= Dim(ends)
  {
    BlockBounds(ends, k);
    ends[k] - Start(ends, k)
  }

  /** No end index exceeds the dimension. */
  lemma {:induction false} EndsWithinDim(ends: seq<nat>)
    requires Increasing(ends)
    ensures forall k :: 0 <= k < |ends| ==> ends[k] <= Dim(ends)
  {
    forall k | 0 <= k < |ends| ensures ends[k] <= Dim(ends) {
      BlockBounds(ends, k);
    }
  }

  /** The part of x that block k covers. */
  function Block(ends: seq<nat>, x: seq<real>, k: nat): (b: seq<real>)
    requires Increasing(ends) && |x| == Dim(ends) && k < |ends|
    ensures |b| == ends[k] - Start(ends, k)
  {
    BlockBounds(ends, k);
    x[Start(ends, k)..ends[k]]
  }

  /** The first k blocks can each project a buffer of their length. */
  predicate BlocksFit(ends: seq<nat>, blocks: seq<Constraint>, k: nat)
    requires Layout(ends, blocks) && k <= |blocks|
  {
    forall j :: 0 <= j < k ==> Fits(blocks[j], Width(ends, j))
  }

  /** A buffer of length n is one the product can project. */
  predicate ProductFits(ends: seq<nat>, blocks: seq<Constraint>, n: nat)
  {
    Layout(ends, blocks) && n == Dim(ends) && BlocksFit(ends, blocks, |blocks|)
  }

  /** The buffer after the first k blocks have been projected in turn. */
  function ApplyBlocks(ends: seq<nat>, blocks: seq<Constraint>, x: seq<real>, k: nat): (r: seq<real>)
    requires Layout(ends, blocks) && |x| == Dim(ends) && k <= |blocks| && BlocksFit(ends, blocks, k)
    ensures |r| == |x|
    decreases k, 0
  {
    if k == 0 then x
    else
      BlockBounds(ends, k - 1);
      Splice(ApplyBlocks(ends, blocks, x, k - 1), Start(ends, k - 1), ends[k - 1], NextImage(ends, blocks, x, k - 1))
  }

  /** What block k is overwritten with: the projection of its contents once blocks 0..k-1 are done. */
  function NextImage(ends: seq<nat>, blocks: seq<Constraint>, x: seq<real>, k: nat): (p: seq<real>)
    requires Layout(ends, blocks) && |x| == Dim(ends) && k < |blocks| && BlocksFit(ends, blocks, k + 1)
    ensures |p| == Width(ends, k)
    decreases k, 1
  {
    Proj(blocks[k], Block(ends, ApplyBlocks(ends, blocks, x, k), k))
  }

  /** The projection onto the product: every block projected in order. */
  function ProductProj(ends: seq<nat>, blocks: seq<Constraint>, x: seq<real>): (p: seq<real>)
    requires ProductFits(ends, blocks, |x|)
    ensures |p| == |x|
  {
    ApplyBlocks(ends, blocks, x, |blocks|)
  }

  /** x belongs to the product: each block belongs to its set. */
  predicate ProductContains(ends: seq<nat>, blocks: seq<Constraint>, x: seq<real>)
    requires ProductFits(ends, blocks, |x|)
  {
    forall k :: 0 <= k < |blocks| ==> Contains(blocks[k], Block(ends, x, k))
  }

  /** Every block reports itself convex (the library's is_convex on the product). */
  function AllConvex(blocks: seq<Constraint>): (b: bool)
    ensures b <==> forall k :: 0 <= k < |blocks| ==> ConstraintSets.IsConvex(blocks[k])
  {
    |blocks| == 0 || (AllConvex(blocks[..|blocks| - 1]) && ConstraintSets.IsConvex(blocks[|blocks| - 1]))
  }

  /** How many leading blocks, from block k on, can project a buffer of their length. */
  function FitCount(ends: seq<nat>, blocks: seq<Constraint>, k: nat): (n: nat)
    requires Layout(ends, blocks) && k <= |blocks| && BlocksFit(ends, blocks, k)
    ensures k <= n <= |blocks| && BlocksFit(ends, blocks, n)
    ensures n < |blocks| ==> !Fits(blocks[n], Width(ends, n))
    decreases |blocks| - k
  {
    if k == |blocks| then k
    else if !Fits(blocks[k], Width(ends, k)) then k
    else FitCount(ends, blocks, k + 1)
  }

  // ---------------------------------------------------------------------------
  // Lemmas

  /**
   * One more block: the buffer prev left by the first k blocks gets some p of the
   * block's length spliced over block k (ApplyBlocksNext and ApplyBlocksImage say
   * which p).
   */
  lemma {:induction false} ApplyBlocksStep(ends: seq<nat>, blocks: seq<Constraint>, x: seq<real>, k: nat)
    returns (prev: seq<real>, p: seq<real>)
    requires Layout(ends, blocks) && |x| == Dim(ends) && k < |blocks| && BlocksFit(ends, blocks, k + 1)
    ensures Start(ends, k) < ends[k] <= |x| == |prev| && |p| == Width(ends, k)
    ensures prev == ApplyBlocks(ends, blocks, x, k)
    ensures ApplyBlocks(ends, blocks, x, k + 1) == Splice(prev, Start(ends, k), ends[k], p)
  {
    BlockBounds(ends, k);
    prev := ApplyBlocks(ends, blocks, x, k);
    p := NextImage(ends, blocks, x, k);
  }

  /** One more block: splice the projection of block k's current contents into the buffer. */
  lemma {:induction false} ApplyBlocksNext(ends: seq<nat>, blocks: seq<Constraint>, x: seq<real>, k: nat)
    requires Layout(ends, blocks) && |x| == Dim(ends) && k < |blocks| && BlocksFit(ends, blocks, k + 1)
    ensures Start(ends, k) < ends[k] <= |x|
    ensures ApplyBlocks(ends, blocks, x, k + 1) ==
      Splice(ApplyBlocks(ends, blocks, x, k), Start(ends, k), ends[k],
             Proj(blocks[k], ApplyBlocks(ends, blocks, x, k)[Start(ends, k)..ends[k]]))
  {
    BlockBounds(ends, k);
    assert NextImage(ends, blocks, x, k) == Proj(blocks[k], ApplyBlocks(ends, blocks, x, k)[Start(ends, k)..ends[k]]);
  }

  /** Projecting the first k blocks leaves everything from the start of block k on untouched. */
  lemma {:induction false} ApplyBlocksTail(ends: seq<nat>, blocks: seq<Constraint>, x: seq<real>, k: nat)
    requires Layout(ends, blocks) && |x| == Dim(ends) && k <= |blocks| && BlocksFit(ends, blocks, k)
    ensures Start(ends, k) <= |x|
    ensures ApplyBlocks(ends, blocks, x, k)[Start(ends, k)..] == x[Start(ends, k)..]
  {
    if k > 0 {
      ApplyBlocksTail(ends, blocks, x, k - 1);
      var prev, p := ApplyBlocksStep(ends, blocks, x, k - 1);
      SpliceTail(prev, x, Start(ends, k - 1), ends[k - 1], p);
    }
  }

  /** A splice at [s, e) into a buffer that agrees with x from s on agrees with x from e on. */
  lemma {:induction false} SpliceTail(prev: seq<real>, x: seq<real>, s: nat, e: nat, p: seq<real>)
    requires |prev| == |x| && s <= e <= |x| && |p| == e - s && prev[s..] == x[s..]
    ensures Splice(prev, s, e, p)[e..] == x[e..]
  {
    SpliceAfter(prev, s, e, p, e);
    SuffixFrom(prev, x, s, e);
  }

  /** Splicing p over block k puts p in block k. */
  lemma {:induction false} BlockSpliced(ends: seq<nat>, prev: seq<real>, k: nat, p: seq<real>)
    requires Increasing(ends) && |prev| == Dim(ends) && k < |ends| && |p| == Width(ends, k)
    ensures Block(ends, Splice(prev, Start(ends, k), ends[k], p), k) == p
  {
    SpliceInside(prev, Start(ends, k), ends[k], p);
  }

  /** A buffer that agrees with x from the start of block k on holds x's block k. */
  lemma {:induction false} BlockUntouched(ends: seq<nat>, prev: seq<real>, x: seq<real>, k: nat)
    requires Increasing(ends) && |prev| == |x| == Dim(ends) && k < |ends| && Start(ends, k) <= |x|
    requires prev[Start(ends, k)..] == x[Start(ends, k)..]
    ensures Block(ends, prev, k) == Block(ends, x, k)
  {
    BlockBounds(ends, k);
    SuffixRange(prev, x, Start(ends, k), Start(ends, k), ends[k]);
  }

  /** Splicing p over block k leaves every earlier block j as it was. */
  lemma {:induction false} BlockKept(ends: seq<nat>, prev: seq<real>, k: nat, p: seq<real>, j: nat)
    requires Increasing(ends) && |prev| == Dim(ends) && j < k < |ends| && |p| == Width(ends, k)
    ensures Block(ends, Splice(prev, Start(ends, k), ends[k], p), j) == Block(ends, prev, j)
  {
    BlockBounds(ends, j);
    BlockBounds(ends, k);
    IncreasingPairs(ends, j, k - 1);
    SpliceBefore(prev, Start(ends, k), ends[k], p, Start(ends, j), ends[j]);
  }

  /** Once block j has been projected (step j + 1), later blocks leave it as it is. */
  lemma {:induction false} ApplyBlocksBlock(ends: seq<nat>, blocks: seq<Constraint>, x: seq<real>, k: nat, j: nat)
    requires Layout(ends, blocks) && |x| == Dim(ends) && k <= |blocks| && BlocksFit(ends, blocks, k) && j < k
    ensures BlocksFit(ends, blocks, j + 1)
    ensures Block(ends, ApplyBlocks(ends, blocks, x, k), j) == Block(ends, ApplyBlocks(ends, blocks, x, j + 1), j)
  {
    if k > j + 1 {
      var prev, p := ApplyBlocksStep(ends, blocks, x, k - 1);
      ApplyBlocksBlock(ends, blocks, x, k - 1, j);
      BlockKept(ends, prev, k - 1, p, j);
    }
  }

  /** Step j + 1 leaves in block j the projection of its original contents: earlier steps do not touch it. */
  lemma {:induction false} ApplyBlocksImage(ends: seq<nat>, blocks: seq<Constraint>, x: seq<real>, k: nat)
    requires Layout(ends, blocks) && |x| == Dim(ends) && k < |blocks| && BlocksFit(ends, blocks, k + 1)
    ensures Block(ends, ApplyBlocks(ends, blocks, x, k + 1), k) == Proj(blocks[k], Block(ends, x, k))
  {
    BlockBounds(ends, k);
    ApplyBlocksTail(ends, blocks, x, k);
    BlockUntouched(ends, ApplyBlocks(ends, blocks, x, k), x, k);
    BlockSpliced(ends, ApplyBlocks(ends, blocks, x, k), k, NextImage(ends, blocks, x, k));
  }

  /** Projecting onto the product projects each block onto its own set, independently. */
  lemma {:induction false} ProductProjBlock(ends: seq<nat>, blocks: seq<Constraint>, x: seq<real>, k: nat)
    requires ProductFits(ends, blocks, |x|) && k < |blocks|
    ensures Block(ends, ProductProj(ends, blocks, x), k) == Proj(blocks[k], Block(ends, x, k))
  {
    ApplyBlocksBlock(ends, blocks, x, |blocks|, k);
    ApplyBlocksImage(ends, blocks, x, k);
  }

  /** The projection lies in the product. */
  lemma {:induction false} ProductInSet(ends: seq<nat>, blocks: seq<Constraint>, x: seq<real>)
    requires ProductFits(ends, blocks, |x|)
    ensures ProductContains(ends, blocks, ProductProj(ends, blocks, x))
  {
    forall k | 0 <= k < |blocks|
      ensures Contains(blocks[k], Block(ends, ProductProj(ends, blocks, x), k))
    {
      ProductProjBlock(ends, blocks, x, k);
      ProjectionInSet(blocks[k], Block(ends, x, k));
    }
  }

  /** Blockwise comparisons of squared distances add up over the first k blocks. */
  lemma {:induction false} PrefixNearer(ends: seq<nat>, x: seq<real>, p: seq<real>, y: seq<real>, k: nat)
    requires Increasing(ends) && |x| == |p| == |y| == Dim(ends) && k <= |ends|
    requires forall j :: 0 <= j < k ==>
      SqDist(Block(ends, x, j), Block(ends, p, j)) <= SqDist(Block(ends, x, j), Block(ends, y, j))
    ensures Start(ends, k) <= |x|
    ensures SqDist(x[..Start(ends, k)], p[..Start(ends, k)]) <= SqDist(x[..Start(ends, k)], y[..Start(ends, k)])
  {
    if k == 0 {
      assert x[..0] == p[..0] == y[..0] == [];
    } else {
      PrefixNearer(ends, x, p, y, k - 1);
      BlockBounds(ends, k - 1);
      var s, e := Start(ends, k - 1), ends[k - 1];
      assert Start(ends, k) == e;
      PrefixSplit(x, s, e);
      PrefixSplit(p, s, e);
      PrefixSplit(y, s, e);
      SqDistAppend(x[..s], x[s..e], p[..s], p[s..e]);
      SqDistAppend(x[..s], x[s..e], y[..s], y[s..e]);
      assert SqDist(x[s..e], p[s..e]) <= SqDist(x[s..e], y[s..e]) by {
        assert Block(ends, x, k - 1) == x[s..e];
        assert Block(ends, p, k - 1) == p[s..e];
        assert Block(ends, y, k - 1) == y[s..e];
      }
    }
  }

  /** The projection is a point of the product nearest to x. */
  lemma {:induction false} ProductIsNearest(ends: seq<nat>, blocks: seq<Constraint>, x: seq<real>, y: seq<real>)
    requires ProductFits(ends, blocks, |x|) && |y| == |x| && ProductContains(ends, blocks, y)
    ensures SqDist(x, ProductProj(ends, blocks, x)) <= SqDist(x, y)
  {
    var p := ProductProj(ends, blocks, x);
    forall j | 0 <= j < |blocks|
      ensures SqDist(Block(ends, x, j), Block(ends, p, j)) <= SqDist(Block(ends, x, j), Block(ends, y, j))
    {
      BlockNearer(ends, blocks, x, y, j);
    }
    BlocksNearer(ends, x, p, y);
  }

  /** Blockwise comparisons of squared distances add up over the whole buffer. */
  lemma {:induction false} BlocksNearer(ends: seq<nat>, x: seq<real>, p: seq<real>, y: seq<real>)
    requires Increasing(ends) && |x| == |p| == |y| == Dim(ends)
    requires forall j :: 0 <= j < |ends| ==>
      SqDist(Block(ends, x, j), Block(ends, p, j)) <= SqDist(Block(ends, x, j), Block(ends, y, j))
    ensures SqDist(x, p) <= SqDist(x, y)
  {
    PrefixNearer(ends, x, p, y, |ends|);
    var n := Start(ends, |ends|);
    assert x[..n] == x && p[..n] == p && y[..n] == y;
  }

  /** Block j of the projection is at least as near to block j of x as block j of any member. */
  lemma {:induction false} BlockNearer(ends: seq<nat>, blocks: seq<Constraint>, x: seq<real>, y: seq<real>, j: nat)
    requires ProductFits(ends, blocks, |x|) && |y| == |x| && ProductContains(ends, blocks, y)
    requires j < |blocks|
    ensures SqDist(Block(ends, x, j), Block(ends, ProductProj(ends, blocks, x), j))
         <= SqDist(Block(ends, x, j), Block(ends, y, j))
  {
    ProductProjBlock(ends, blocks, x, j);
    ProjectionIsNearest(blocks[j], Block(ends, x, j), Block(ends, y, j));
  }

  /** A member of the product is left unchanged. */
  lemma {:induction false} ProductFixesMembers(ends: seq<nat>, blocks: seq<Constraint>, x: seq<real>, k: nat)
    requires ProductFits(ends, blocks, |x|) && ProductContains(ends, blocks, x) && k <= |blocks|
    ensures ApplyBlocks(ends, blocks, x, k) == x
  {
    if k > 0 {
      ProductFixesMembers(ends, blocks, x, k - 1);
      StepFixed(ends, blocks, x, k - 1);
    }
  }

  /** A block that already lies in its set is left as it is. */
  lemma {:induction false} StepFixed(ends: seq<nat>, blocks: seq<Constraint>, x: seq<real>, k: nat)
    requires Layout(ends, blocks) && |x| == Dim(ends) && k < |blocks| && BlocksFit(ends, blocks, k + 1)
    requires ApplyBlocks(ends, blocks, x, k) == x && Contains(blocks[k], Block(ends, x, k))
    ensures ApplyBlocks(ends, blocks, x, k + 1) == x
  {
    BlockBounds(ends, k);
    ProjectionFixesMembers(blocks[k], Block(ends, x, k));
    assert NextImage(ends, blocks, x, k) == Block(ends, x, k);
    SpliceFixed(x, x, Start(ends, k), ends[k], NextImage(ends, blocks, x, k));
  }

  /** Splicing x's own range back into x changes nothing. */
  lemma {:induction false} SpliceFixed(prev: seq<real>, x: seq<real>, s: nat, e: nat, p: seq<real>)
    requires prev == x && s <= e <= |x| && p == x[s..e]
    ensures Splice(prev, s, e, p) == x
  {
    SpliceSame(x, s, e);
  }

  /** Projecting onto the product twice is projecting once. */
  lemma {:induction false} ProductIdempotent(ends: seq<nat>, blocks: seq<Constraint>, x: seq<real>)
    requires ProductFits(ends, blocks, |x|)
    ensures ProductProj(ends, blocks, ProductProj(ends, blocks, x)) == ProductProj(ends, blocks, x)
  {
    ProductInSet(ends, blocks, x);
    ProductFixesMembers(ends, blocks, ProductProj(ends, blocks, x), |blocks|);
  }

  /** is_convex() on the product is sound: with every block convex, the product is convex. */
  lemma {:induction false} ProductConvex(ends: seq<nat>, blocks: seq<Constraint>, y: seq<real>, z: seq<real>, t: real)
    requires ProductFits(ends, blocks, |y|) && |z| == |y| && AllConvex(blocks)
    requires ProductContains(ends, blocks, y) && ProductContains(ends, blocks, z) && 0.0 <= t <= 1.0
    ensures ProductContains(ends, blocks, Mix(t, y, z))
  {
    var m := Mix(t, y, z);
    forall k | 0 <= k < |blocks| ensures Contains(blocks[k], Block(ends, m, k)) {
      BlockBounds(ends, k);
      MixRange(t, y, z, Start(ends, k), ends[k]);
      ConvexWhenReported(blocks[k], Block(ends, y, k), Block(ends, z, k), t);
    }
  }

  /** A block that can take its slice extends the run of fitting blocks. */
  lemma {:induction false} FitStep(ends: seq<nat>, blocks: seq<Constraint>, k: nat)
    requires Layout(ends, blocks) && k < |blocks| && BlocksFit(ends, blocks, k)
    requires Fits(blocks[k], Width(ends, k))
    ensures BlocksFit(ends, blocks, k + 1)
    ensures FitCount(ends, blocks, k) == FitCount(ends, blocks, k + 1)
  {
    BlockBounds(ends, k);
  }

  /** A block that cannot take its slice is where the run stops, and the product does not fit. */
  lemma {:induction false} MisfitStops(ends: seq<nat>, blocks: seq<Constraint>, k: nat)
    requires Layout(ends, blocks) && k < |blocks| && BlocksFit(ends, blocks, k)
    requires !Fits(blocks[k], Width(ends, k))
    ensures FitCount(ends, blocks, k) == k
    ensures !BlocksFit(ends, blocks, |blocks|)
  {
  }

  /** A range of a mix is the mix of the ranges. */
  lemma {:induction false} MixRange(t: real, y: seq<real>, z: seq<real>, s: nat, e: nat)
    requires |y| == |z| && s <= e <= |y|
    ensures Mix(t, y, z)[s..e] == Mix(t, y[s..e], z[s..e])
  {
    var l, r := Mix(t, y, z)[s..e], Mix(t, y[s..e], z[s..e]);
    forall i | 0 <= i < e - s ensures l[i] == r[i] {
      assert l[i] == Mix(t, y, z)[s + i];
    }
  }

  /**
   * Project each block's slice in turn, each by its own constraint, stopping at the
   * first block whose constraint cannot take a slice of its length.
   */
  method ProjectBlocks(ends: seq<nat>, blocks: seq<Constraint>, a: array<real>) returns (ok: bool)
    requires Layout(ends, blocks) && a.Length == Dim(ends)
    modifies a
    ensures ok <==> BlocksFit(ends, blocks, |blocks|)
    ensures a[..] == ApplyBlocks(ends, blocks, old(a[..]), FitCount(ends, blocks, 0))
  {
    var prev := 0;
    var k := 0;
    while k < |blocks|
      invariant 0 <= k <= |blocks| && prev == Start(ends, k)
      invariant BlocksFit(ends, blocks, k)
      invariant FitCount(ends, blocks, k) == FitCount(ends, blocks, 0)
      invariant a[..] == ApplyBlocks(ends, blocks, old(a[..]), k)
    {
      BlockBounds(ends, k);
      ok := ProjectNextBlock(ends, blocks, a, k, old(a[..]));
      if !ok {
        return;
      }
      prev, k := ends[k], k + 1;
    }
    ok := true;
  }

  /** One round of ProjectBlocks: project block k of a buffer in which blocks 0..k-1 are done. */
  method ProjectNextBlock(ends: seq<nat>, blocks: seq<Constraint>, a: array<real>, k: nat, ghost x: seq<real>)
    returns (ok: bool)
    requires Layout(ends, blocks) && a.Length == |x| == Dim(ends) && k < |blocks|
    requires BlocksFit(ends, blocks, k) && a[..] == ApplyBlocks(ends, blocks, x, k)
    modifies a
    ensures ok ==> BlocksFit(ends, blocks, k + 1) && a[..] == ApplyBlocks(ends, blocks, x, k + 1)
    ensures ok ==> FitCount(ends, blocks, k + 1) == FitCount(ends, blocks, k)
    ensures !ok ==> FitCount(ends, blocks, k) == k && !BlocksFit(ends, blocks, |blocks|)
    ensures !ok ==> a[..] == ApplyBlocks(ends, blocks, x, k)
  {
    BlockBounds(ends, k);
    ok := ProjectSlice(blocks[k], a, Start(ends, k), ends[k]);
    if !ok {
      MisfitStops(ends, blocks, k);
      return;
    }
    FitStep(ends, blocks, k);
    ApplyBlocksNext(ends, blocks, x, k);
  }

  // ---------------------------------------------------------------------------
  // The builder object

  class CartesianProduct {
    var ends: seq<nat>
    var blocks: seq<Constraint>

    ghost predicate Valid()
      reads this
    {
      Layout(ends, blocks)
    }

    /** new(): the product of no blocks. */
    constructor ()
      ensures Valid() && ends == [] && blocks == []
    {
      ends, blocks := [], [];
    }

    /** new_with_capacity(n): the same; the capacity only sizes the storage. */
    constructor WithCapacity(capacity: nat)
      ensures Valid() && ends == [] && blocks == []
    {
      ends, blocks := [], [];
    }

    /** dimension(): the last end index, 0 when empty; every block ends within it. */
    function Dimension(): (d: nat)
      reads this
      requires Valid()
      ensures forall k :: 0 <= k < |ends| ==> ends[k] <= d
      ensures |ends| > 0 ==> d == ends[|ends| - 1]
      ensures |ends| == 0 ==> d == 0
    {
      EndsWithinDim(ends);
      Dim(ends)
    }

    /** is_convex(): every block reports itself convex. */
    function IsConvex(): (b: bool)
      reads this
      requires Valid()
      ensures b <==> forall k :: 0 <= k < |blocks| ==> ConstraintSets.IsConvex(blocks[k])
    {
      AllConvex(blocks)
    }

    /**
     * add_constraint(end, c): append the block [dimension(), end) governed by c; an
     * end index that does not exceed the current dimension is refused (the library
     * panics) and nothing changes.
     */
    method AddConstraint(end: nat, c: Constraint) returns (ok: bool)
      requires Valid() && WellFormed(c)
      modifies this
      ensures Valid()
      ensures ok <==> end > old(Dimension())
      ensures ok ==> ends == old(ends) + [end] && blocks == old(blocks) + [c]
      ensures !ok ==> ends == old(ends) && blocks == old(blocks)
    {
      ok := end > Dimension();
      if ok {
        assert (ends + [end])[..|ends|] == ends;
        ends, blocks := ends + [end], blocks + [c];
      }
    }

    /**
     * project(x): a buffer whose length is not the dimension is refused and left
     * untouched; otherwise each block's slice is projected in turn. A block whose
     * constraint cannot take a slice of that length stops the run (the library
     * panics) after the blocks before it have been projected.
     */
    method Project(a: array<real>) returns (ok: bool)
      requires Valid()
      modifies a
      ensures ok <==> ProductFits(ends, blocks, a.Length)
      ensures ok ==> a[..] == ProductProj(ends, blocks, old(a[..]))
      ensures a.Length != Dimension() ==> a[..] == old(a[..])
      ensures !ok && a.Length == Dimension() ==>
        a[..] == ApplyBlocks(ends, blocks, old(a[..]), FitCount(ends, blocks, 0))
    {
      if a.Length != Dimension() {
        return false;
      }
      ok := ProjectBlocks(ends, blocks, a);
      if ok {
        assert FitCount(ends, blocks, 0) == |blocks|;
      }
    }
  }
}
