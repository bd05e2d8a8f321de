/**
 * The in-place projections: every constraint's project(x) overwrites the buffer
 * with the projection of its previous contents. The buffer is an array and the
 * projected stretch a range [lo, hi) of it, so that a Cartesian product can hand
 * each block its own sub-slice; the rest of the array is left alone.
 *
 * Each method is proved to leave exactly Splice(old contents, lo, hi, Proj(...))
 * in the array, which ties it to the value-level definitions of module Projections
 * and through them to the theorems of module Optimality.
 */
module InPlace {
  import opened Wrappers
  import opened Vectors
  import opened ConstraintSets
  import opened WaterFilling
  import opened Projections

  /** s with the range [lo, hi) replaced by p. */
  function Splice(s: seq<real>, lo: nat, hi: nat, p: seq<real>): (r: seq<real>)
    requires lo <= hi <= |s| && |p| == hi - lo
    ensures |r| == |s|
    ensures forall j :: 0 <= j < |s| ==> r[j] == (if lo <= j < hi then p[j - lo] else s[j])
  {
    s[..lo] + p + s[hi..]
  }

  /** t agrees with s except on [lo, i), where it already holds the first i - lo entries of p. */
  ghost predicate WrittenUpTo(s: seq<real>, t: seq<real>, lo: nat, i: nat, p: seq<real>)
    requires |s| == |t| && lo <= i <= lo + |p|
  {
    forall j :: 0 <= j < |s| ==> t[j] == (if lo <= j < i then p[j - lo] else s[j])
  }

  /** Writing p's next entry extends the written range by one. */
  lemma {:induction false} WriteStep(s: seq<real>, t: seq<real>, lo: nat, i: nat, p: seq<real>)
    requires |s| == |t| && lo <= i < lo + |p| && i < |s|
    requires WrittenUpTo(s, t, lo, i, p)
    ensures WrittenUpTo(s, t[i := p[i - lo]], lo, i + 1, p)
  {
  }

  lemma {:induction false} SpliceWritten(s: seq<real>, t: seq<real>, lo: nat, hi: nat, p: seq<real>)
    requires |s| == |t| && lo <= hi <= |s| && |p| == hi - lo
    requires WrittenUpTo(s, t, lo, hi, p)
    ensures t == Splice(s, lo, hi, p)
  {
  }

  /** Splicing a range back in with its own contents changes nothing. */
  lemma {:induction false} SpliceSame(s: seq<real>, lo: nat, hi: nat)
    requires lo <= hi <= |s|
    ensures Splice(s, lo, hi, s[lo..hi]) == s
  {
  }

  lemma {:induction false} SpliceWhole(s: seq<real>, p: seq<real>)
    requires |p| == |s|
    ensures Splice(s, 0, |s|, p) == p
  {
  }

  /** Splice leaves everything from hi on as it was. */
  lemma {:induction false} SpliceAfter(s: seq<real>, lo: nat, hi: nat, p: seq<real>, from: nat)
    requires lo <= hi <= from <= |s| && |p| == hi - lo
    ensures Splice(s, lo, hi, p)[from..] == s[from..]
  {
  }

  /** Splice leaves every range below lo as it was. */
  lemma {:induction false} SpliceBefore(s: seq<real>, lo: nat, hi: nat, p: seq<real>, i: nat, j: nat)
    requires i <= j <= lo <= hi <= |s| && |p| == hi - lo
    ensures Splice(s, lo, hi, p)[i..j] == s[i..j]
  {
  }

  /** Splice puts p at [lo, hi). */
  lemma {:induction false} SpliceInside(s: seq<real>, lo: nat, hi: nat, p: seq<real>)
    requires lo <= hi <= |s| && |p| == hi - lo
    ensures Splice(s, lo, hi, p)[lo..hi] == p
  {
  }

  /** Two sequences that agree from lo on agree on every range above lo. */
  lemma {:induction false} SuffixRange(s: seq<real>, t: seq<real>, lo: nat, i: nat, j: nat)
    requires |s| == |t| && lo <= i <= j <= |s| && s[lo..] == t[lo..]
    ensures s[i..j] == t[i..j]
  {
    forall k | i <= k < j ensures s[k] == t[k] {
      assert s[k] == s[lo..][k - lo] && t[k] == t[lo..][k - lo];
    }
  }

  /** Two sequences that agree from lo on agree from every later index on. */
  lemma {:induction false} SuffixFrom(s: seq<real>, t: seq<real>, lo: nat, i: nat)
    requires |s| == |t| && lo <= i <= |s| && s[lo..] == t[lo..]
    ensures s[i..] == t[i..]
  {
    assert s[i..] == s[lo..][i - lo..];
    assert t[i..] == t[lo..][i - lo..];
  }

  /** Appending one more entry to a prefix adds it to the sum. */
  lemma {:induction false} SumPrefix(w: seq<real>, k: nat)
    requires k < |w|
    ensures Sum(w[..k + 1]) == Sum(w[..k]) + w[k]
  {
    assert w[..k + 1][..k] == w[..k];
  }

  // ---------------------------------------------------------------------------
  // Reductions over a buffer (they read and change nothing)

  /** <u, v>, accumulated left to right. */
  method InnerProduct(u: seq<real>, v: seq<real>) returns (s: real)
    requires |u| == |v|
    ensures s == Dot(u, v)
  {
    ghost var w := Mul(u, v);
    s := 0.0;
    for k := 0 to |u|
      invariant s == Sum(w[..k])
    {
      SumPrefix(w, k);
      s := s + u[k] * v[k];
    }
    assert w[..|u|] == w;
  }

  /** |u - v|^2, accumulated left to right. */
  method SquaredDistance(u: seq<real>, v: seq<real>) returns (s: real)
    requires |u| == |v|
    ensures s == SqDist(u, v)
  {
    ghost var w := SqDiffs(u, v);
    s := 0.0;
    for k := 0 to |u|
      invariant s == Sum(w[..k])
    {
      SumPrefix(w, k);
      s := s + (u[k] - v[k]) * (u[k] - v[k]);
    }
    assert w[..|u|] == w;
  }

  /** |u - v|_1, accumulated left to right. */
  method L1Distance(u: seq<real>, v: seq<real>) returns (s: real)
    requires |u| == |v|
    ensures s == Norm1(Sub(u, v))
  {
    ghost var w := AbsAll(Sub(u, v));
    s := 0.0;
    for k := 0 to |u|
      invariant s == Sum(w[..k])
    {
      SumPrefix(w, k);
      s := s + Abs(u[k] - v[k]);
    }
    assert w[..|u|] == w;
  }

  /** The water-filling level of mask m over a[lo..hi]: one pass summing and counting the active entries. */
  method ComputeLevel(a: array<real>, lo: nat, hi: nat, m: seq<bool>, alpha: real) returns (t: real)
    requires lo <= hi <= a.Length && |m| == hi - lo && ActiveCount(m) > 0
    ensures t == Level(a[lo..hi], m, alpha)
  {
    ghost var x := a[lo..hi];
    var s, count := 0.0, 0;
    for k := 0 to hi - lo
      invariant s == ActiveSum(x[..k], m[..k]) && count == ActiveCount(m[..k])
    {
      assert x[..k + 1][..k] == x[..k] && m[..k + 1][..k] == m[..k];
      if m[k] {
        s, count := s + a[lo + k], count + 1;
      }
    }
    assert x[..hi - lo] == x && m[..hi - lo] == m;
    t := (s - alpha) / (count as real);
  }

  /** The next mask of the iteration, and whether it differs from m. */
  method PruneMask(a: array<real>, lo: nat, hi: nat, m: seq<bool>, t: real) returns (m': seq<bool>, changed: bool)
    requires lo <= hi <= a.Length && |m| == hi - lo
    ensures m' == Prune(a[lo..hi], m, t)
    ensures changed <==> m' != m
  {
    ghost var x := a[lo..hi];
    m', changed := [], false;
    for k := 0 to hi - lo
      invariant |m'| == k && forall j :: 0 <= j < k ==> m'[j] == (m[j] && x[j] > t)
      invariant changed <==> m' != m[..k]
    {
      var keep := m[k] && a[lo + k] > t;
      if keep != m[k] {
        changed := true;
      }
      m' := m' + [keep];
    }
    assert m[..hi - lo] == m;
  }

  // ---------------------------------------------------------------------------
  // Writers of one range

  /** Overwrite a[lo..hi] with p. */
  method CopyInto(p: seq<real>, a: array<real>, lo: nat, hi: nat)
    requires lo <= hi <= a.Length && |p| == hi - lo
    modifies a
    ensures a[..] == Splice(old(a[..]), lo, hi, p)
  {
    for i := lo to hi
      invariant WrittenUpTo(old(a[..]), a[..], lo, i, p)
    {
      a[i] := p[i - lo];
    }
    SpliceWritten(old(a[..]), a[..], lo, hi, p);
  }

  /** a[lo..hi] -= t * v. */
  method SubtractMultiple(a: array<real>, lo: nat, hi: nat, t: real, v: seq<real>)
    requires lo <= hi <= a.Length && |v| == hi - lo
    modifies a
    ensures a[..] == Splice(old(a[..]), lo, hi, Sub(old(a[lo..hi]), Scale(t, v)))
  {
    ghost var p := Sub(a[lo..hi], Scale(t, v));
    for i := lo to hi
      invariant WrittenUpTo(old(a[..]), a[..], lo, i, p)
    {
      a[i] := a[i] - t * v[i - lo];
    }
    SpliceWritten(old(a[..]), a[..], lo, hi, p);
  }

  /** a[lo..hi] := max(a[lo..hi] - t, 0), entry by entry. */
  method SoftThreshold(a: array<real>, lo: nat, hi: nat, t: real)
    requires lo <= hi <= a.Length
    modifies a
    ensures a[..] == Splice(old(a[..]), lo, hi, PosPart(old(a[lo..hi]), t))
  {
    ghost var p := PosPart(a[lo..hi], t);
    for i := lo to hi
      invariant WrittenUpTo(old(a[..]), a[..], lo, i, p)
    {
      a[i] := Max0(a[i] - t);
    }
    SpliceWritten(old(a[..]), a[..], lo, hi, p);
  }

  // ---------------------------------------------------------------------------
  // One method per constraint

  method ProjectZero(a: array<real>, lo: nat, hi: nat)
    requires lo <= hi <= a.Length
    modifies a
    ensures a[..] == Splice(old(a[..]), lo, hi, Proj(Zero, old(a[lo..hi])))
  {
    ghost var p := Zeros(hi - lo);
    for i := lo to hi
      invariant WrittenUpTo(old(a[..]), a[..], lo, i, p)
    {
      a[i] := 0.0;
    }
    SpliceWritten(old(a[..]), a[..], lo, hi, p);
  }

  /** Hyperplane: subtract (<a, x> - b) / |a|^2 times the normal. */
  method ProjectHyperplane(normal: seq<real>, offset: real, a: array<real>, lo: nat, hi: nat)
    requires lo <= hi <= a.Length && NonZero(normal) && |normal| == hi - lo
    modifies a
    ensures a[..] == Splice(old(a[..]), lo, hi, Proj(Hyperplane(normal, offset), old(a[lo..hi])))
  {
    ghost var x := a[lo..hi];
    var ip := InnerProduct(normal, a[lo..hi]);
    var nsq := InnerProduct(normal, normal);
    NormSqPositive(normal);
    var t := (ip - offset) / nsq;
    assert t == Step(normal, offset, x);
    SubtractMultiple(a, lo, hi, t, normal);
  }

  /** Halfspace: as the hyperplane, but only when <a, x> > b. */
  method ProjectHalfspace(normal: seq<real>, offset: real, a: array<real>, lo: nat, hi: nat)
    requires lo <= hi <= a.Length && WellFormed(Halfspace(normal, offset)) && |normal| == hi - lo
    modifies a
    ensures a[..] == Splice(old(a[..]), lo, hi, Proj(Halfspace(normal, offset), old(a[lo..hi])))
  {
    ghost var x := a[lo..hi];
    var ip := InnerProduct(normal, a[lo..hi]);
    if ip > offset {
      ZeroNormalDot(normal, x);
      var nsq := InnerProduct(normal, normal);
      NormSqPositive(normal);
      var t := (ip - offset) / nsq;
      assert t == Step(normal, offset, x);
      SubtractMultiple(a, lo, hi, t, normal);
    } else {
      SpliceSame(a[..], lo, hi);
    }
  }

  /** Rectangle: raise each entry to its lower bound, lower it to its upper bound. */
  method ProjectRectangle(xmin: Option<Bounds>, xmax: Option<Bounds>, a: array<real>, lo: nat, hi: nat)
    requires lo <= hi <= a.Length
    requires WellFormed(Rectangle(xmin, xmax)) && Fits(Rectangle(xmin, xmax), hi - lo)
    modifies a
    ensures a[..] == Splice(old(a[..]), lo, hi, Proj(Rectangle(xmin, xmax), old(a[lo..hi])))
  {
    ghost var p := RectangleProj(xmin, xmax, a[lo..hi]);
    for i := lo to hi
      invariant WrittenUpTo(old(a[..]), a[..], lo, i, p)
    {
      a[i] := Clip(a[i], LowerAt(xmin, i - lo), UpperAt(xmax, i - lo));
    }
    SpliceWritten(old(a[..]), a[..], lo, hi, p);
  }

  /** BallInf: clip each entry into [c_i - r, c_i + r]; with no center, into [-r, r]. */
  method ProjectBallInf(center: Option<seq<real>>, r: real, a: array<real>, lo: nat, hi: nat)
    requires lo <= hi <= a.Length && r > 0.0 && (center.Some? ==> |center.value| == hi - lo)
    modifies a
    ensures a[..] == Splice(old(a[..]), lo, hi, Proj(BallInf(center, r), old(a[lo..hi])))
  {
    ghost var x := a[lo..hi];
    ClipAround(center, r, a, lo, hi);
    assert Proj(BallInf(center, r), x) == BallInfProj(CenterOf(center, hi - lo), r, x);
  }

  method ClipAround(center: Option<seq<real>>, r: real, a: array<real>, lo: nat, hi: nat)
    requires lo <= hi <= a.Length && (center.Some? ==> |center.value| == hi - lo)
    modifies a
    ensures a[..] == Splice(old(a[..]), lo, hi, BallInfProj(CenterOf(center, hi - lo), r, old(a[lo..hi])))
  {
    var c := CenterOf(center, hi - lo);
    ghost var s := a[..];
    ghost var p := BallInfProj(c, r, a[lo..hi]);
    for i := lo to hi
      invariant WrittenUpTo(s, a[..], lo, i, p)
    {
      ghost var t := a[..];
      var v := c[i - lo] + Clip(a[i] - c[i - lo], Some(-r), Some(r));
      assert v == p[i - lo];
      a[i] := v;
      WriteStep(s, t, lo, i, p);
    }
    SpliceWritten(s, a[..], lo, hi, p);
  }

  /**
   * Simplex: run the water-filling iteration from the full mask until a round
   * drops nothing, then soft-threshold at the level reached.
   */
  method ProjectSimplex(alpha: real, a: array<real>, lo: nat, hi: nat)
    requires lo < hi <= a.Length && alpha > 0.0
    modifies a
    ensures a[..] == Splice(old(a[..]), lo, hi, SimplexProj(old(a[lo..hi]), alpha))
  {
    ghost var x := a[lo..hi];
    var m := AllActive(hi - lo);
    AllActiveCount(hi - lo);
    var t := ComputeLevel(a, lo, hi, m, alpha);
    var m', changed := PruneMask(a, lo, hi, m, t);
    while changed
      invariant Inv(x, m, alpha) && t == Level(x, m, alpha)
      invariant m' == Prune(x, m, t) && (changed <==> m' != m)
      invariant Threshold(x, m, alpha) == SimplexThreshold(x, alpha)
      invariant a[..] == old(a[..])
      decreases ActiveCount(m)
    {
      ThresholdStep(x, m, alpha);
      m := m';
      t := ComputeLevel(a, lo, hi, m, alpha);
      m', changed := PruneMask(a, lo, hi, m, t);
    }
    ThresholdFixed(x, m, alpha);
    SoftThreshold(a, lo, hi, t);
  }

  /**
   * Ball1: a point already in the ball is left alone; otherwise the magnitudes
   * |x_i - c_i| are projected onto the simplex of size r in a scratch buffer and
   * written back with their signs, around the center.
   */
  method ProjectBall1(center: Option<seq<real>>, r: real, a: array<real>, lo: nat, hi: nat)
    requires lo <= hi <= a.Length && r > 0.0 && (center.Some? ==> |center.value| == hi - lo)
    modifies a
    ensures a[..] == Splice(old(a[..]), lo, hi, Proj(Ball1(center, r), old(a[lo..hi])))
  {
    ghost var x := a[lo..hi];
    var c := if center.Some? then center.value else Zeros(hi - lo);
    Ball1Around(c, r, a, lo, hi);
    assert Proj(Ball1(center, r), x) == Add(Ball1AtOrigin(Sub(x, c), r), c);
  }

  /** The L1-ball projection around the center c. */
  method Ball1Around(c: seq<real>, r: real, a: array<real>, lo: nat, hi: nat)
    requires lo <= hi <= a.Length && r > 0.0 && |c| == hi - lo
    modifies a
    ensures a[..] == Splice(old(a[..]), lo, hi, Add(Ball1AtOrigin(Sub(old(a[lo..hi]), c), r), c))
  {
    ghost var x := a[lo..hi];
    var d := Sub(a[lo..hi], c);
    var norm := L1Distance(a[lo..hi], c);
    if norm <= r {
      SubAddCancel(x, c);
      SpliceSame(a[..], lo, hi);
    } else {
      Ball1Outside(c, r, a, lo, hi, d);
    }
  }

  /**
   * The L1-ball projection of a point outside the ball: project the magnitudes of
   * its offsets d from the center onto the simplex of size r, in a scratch buffer,
   * and write them back with their signs, around the center.
   */
  method Ball1Outside(c: seq<real>, r: real, a: array<real>, lo: nat, hi: nat, d: seq<real>)
    requires lo <= hi <= a.Length && r > 0.0 && |c| == |d| == hi - lo && Norm1(d) > r
    modifies a
    ensures a[..] == Splice(old(a[..]), lo, hi, Add(SignRestore(d, SimplexProj(AbsAll(d), r)), c))
  {
    var w := Magnitudes(d);
    ghost var u := w[..];
    assert w[0..|d|] == u;
    ProjectSimplex(r, w, 0, |d|);
    ghost var q := SimplexProj(u, r);
    SpliceWhole(u, q);
    var mags := w[..];
    RestoreSigns(a, lo, hi, c, d, mags);
  }

  /** A fresh buffer holding |d_i|. */
  method Magnitudes(d: seq<real>) returns (w: array<real>)
    ensures fresh(w) && w[..] == AbsAll(d)
  {
    w := new real[|d|](k requires 0 <= k < |d| => Abs(d[k]));
  }

  /** a[lo..hi] := c + (q with the signs of d). */
  method RestoreSigns(a: array<real>, lo: nat, hi: nat, c: seq<real>, d: seq<real>, q: seq<real>)
    requires lo <= hi <= a.Length && |c| == |d| == |q| == hi - lo
    modifies a
    ensures a[..] == Splice(old(a[..]), lo, hi, Add(SignRestore(d, q), c))
  {
    ghost var p := Add(SignRestore(d, q), c);
    for i := lo to hi
      invariant WrittenUpTo(old(a[..]), a[..], lo, i, p)
    {
      var k := i - lo;
      a[i] := c[k] + (if d[k] < 0.0 then -q[k] else q[k]);
    }
    SpliceWritten(old(a[..]), a[..], lo, hi, p);
  }

  /** FiniteSet: copy in the nearest point, the first one among equally near points. */
  method ProjectFiniteSet(points: seq<seq<real>>, a: array<real>, lo: nat, hi: nat)
    requires lo <= hi <= a.Length && |points| > 0 && SameLength(points, hi - lo)
    modifies a
    ensures a[..] == Splice(old(a[..]), lo, hi, Proj(FiniteSet(points), old(a[lo..hi])))
  {
    var best := NearestPoint(points, a[lo..hi]);
    CopyInto(points[best], a, lo, hi);
  }

  /** Scan the points in order; a later point replaces the best so far only when strictly nearer. */
  method NearestPoint(points: seq<seq<real>>, x: seq<real>) returns (best: nat)
    requires |points| > 0 && SameLength(points, |x|)
    ensures best == NearestIndex(points, x)
  {
    best := 0;
    var bestDist := SquaredDistance(x, points[0]);
    for k := 1 to |points|
      invariant best == NearestAmong(points, x, k)
      invariant bestDist == SqDist(x, points[best])
    {
      NearestStep(points, x, k);
      var dist := SquaredDistance(x, points[k]);
      if dist < bestDist {
        best, bestDist := k, dist;
      }
    }
  }

  /** One more point scanned: it becomes the best only when strictly nearer. */
  lemma {:induction false} NearestStep(points: seq<seq<real>>, x: seq<real>, k: nat)
    requires 0 < k < |points| && SameLength(points, |x|)
    ensures NearestAmong(points, x, k + 1) ==
      var j := NearestAmong(points, x, k);
      if SqDist(x, points[k]) < SqDist(x, points[j]) then k else j
  {
  }

  /**
   * project(x) on the stretch a[lo..hi]: a buffer of a length the constraint cannot
   * take is refused (ok == false) and left untouched.
   */
  method ProjectSlice(c: Constraint, a: array<real>, lo: nat, hi: nat) returns (ok: bool)
    requires lo <= hi <= a.Length && WellFormed(c)
    modifies a
    ensures ok <==> Fits(c, hi - lo)
    ensures ok ==> a[..] == Splice(old(a[..]), lo, hi, Proj(c, old(a[lo..hi])))
    ensures !ok ==> a[..] == old(a[..])
  {
    ok := Fits(c, hi - lo);
    if !ok {
      return;
    }
    match c
    case Zero => ProjectZero(a, lo, hi);
    case NoConstraints => SpliceSame(a[..], lo, hi);
    case Hyperplane(normal, offset) => ProjectHyperplane(normal, offset, a, lo, hi);
    case Halfspace(normal, offset) => ProjectHalfspace(normal, offset, a, lo, hi);
    case Rectangle(xmin, xmax) => ProjectRectangle(xmin, xmax, a, lo, hi);
    case BallInf(center, r) => ProjectBallInf(center, r, a, lo, hi);
    case Ball1(center, r) => ProjectBall1(center, r, a, lo, hi);
    case Simplex(alpha) => ProjectSimplex(alpha, a, lo, hi);
    case FiniteSet(points) => ProjectFiniteSet(points, a, lo, hi);
  }

  /** project(x) on the whole buffer. */
  method Project(c: Constraint, a: array<real>) returns (ok: bool)
    requires WellFormed(c)
    modifies a
    ensures ok <==> Fits(c, a.Length)
    ensures ok ==> a[..] == Proj(c, old(a[..]))
    ensures !ok ==> a[..] == old(a[..])
  {
    ghost var x := a[..];
    assert x[0..a.Length] == x;
    ok := ProjectSlice(c, a, 0, a.Length);
    if ok {
      SpliceWhole(x, Proj(c, x));
    }
  }
}
