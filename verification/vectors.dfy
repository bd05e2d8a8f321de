/**
 * Exact vector algebra over the reals: sums, pointwise maps, inner products and
 * distances. This is the arithmetic every projector relies on; it stands in for
 * the library's floating-point vector helpers.
 */
module Vectors {

  /** Sum of the entries, accumulated left to right as a loop over the buffer would. */
  function Sum(s: seq<real>): real
  {
    if |s| == 0 then 0.0 else Sum(s[..|s| - 1]) + s[|s| - 1]
  }

  function Abs(r: real): real
  {
    if r < 0.0 then -r else r
  }

  function Sq(r: real): real
  {
    r * r
  }

  /** The positive part max(r, 0). */
  function Max0(r: real): real
  {
    if r > 0.0 then r else 0.0
  }

  function Sub(u: seq<real>, v: seq<real>): (w: seq<real>)
    requires |u| == |v|
    ensures |w| == |u| && forall i :: 0 <= i < |u| ==> w[i] == u[i] - v[i]
  {
    seq(|u|, i requires 0 <= i < |u| => u[i] - v[i])
  }

  function Add(u: seq<real>, v: seq<real>): (w: seq<real>)
    requires |u| == |v|
    ensures |w| == |u| && forall i :: 0 <= i < |u| ==> w[i] == u[i] + v[i]
  {
    seq(|u|, i requires 0 <= i < |u| => u[i] + v[i])
  }

  function Scale(k: real, u: seq<real>): (w: seq<real>)
    ensures |w| == |u| && forall i :: 0 <= i < |u| ==> w[i] == k * u[i]
  {
    seq(|u|, i requires 0 <= i < |u| => k * u[i])
  }

  /** Pointwise product. */
  function Mul(u: seq<real>, v: seq<real>): (w: seq<real>)
    requires |u| == |v|
    ensures |w| == |u| && forall i :: 0 <= i < |u| ==> w[i] == u[i] * v[i]
  {
    seq(|u|, i requires 0 <= i < |u| => u[i] * v[i])
  }

  /** Pointwise squared differences (u_i - v_i)^2. */
  function SqDiffs(u: seq<real>, v: seq<real>): (w: seq<real>)
    requires |u| == |v|
    ensures |w| == |u| && forall i :: 0 <= i < |u| ==> w[i] == Sq(u[i] - v[i])
  {
    seq(|u|, i requires 0 <= i < |u| => Sq(u[i] - v[i]))
  }

  /** Pointwise absolute values. */
  function AbsAll(u: seq<real>): (w: seq<real>)
    ensures |w| == |u| && forall i :: 0 <= i < |u| ==> w[i] == Abs(u[i])
  {
    seq(|u|, i requires 0 <= i < |u| => Abs(u[i]))
  }

  /** Pointwise max(u_i - t, 0): the soft threshold at level t. */
  function PosPart(u: seq<real>, t: real): (w: seq<real>)
    ensures |w| == |u| && forall i :: 0 <= i < |u| ==> w[i] == Max0(u[i] - t)
  {
    seq(|u|, i requires 0 <= i < |u| => Max0(u[i] - t))
  }

  function Zeros(n: nat): (w: seq<real>)
    ensures |w| == n && forall i :: 0 <= i < n ==> w[i] == 0.0
  {
    seq(n, i => 0.0)
  }

  function Dot(u: seq<real>, v: seq<real>): real
    requires |u| == |v|
  {
    Sum(Mul(u, v))
  }

  function NormSq(u: seq<real>): real
  {
    Dot(u, u)
  }

  /** Squared Euclidean distance. */
  function SqDist(u: seq<real>, v: seq<real>): real
    requires |u| == |v|
  {
    Sum(SqDiffs(u, v))
  }

  function Norm1(u: seq<real>): real
  {
    Sum(AbsAll(u))
  }

  /** Some entry is non-zero. */
  predicate NonZero(u: seq<real>)
  {
    exists i :: 0 <= i < |u| && u[i] != 0.0
  }

  /** An all-zero normal is orthogonal to every vector. */
  lemma {:induction false} ZeroNormalDot(a: seq<real>, x: seq<real>)
    requires |a| == |x|
    ensures !NonZero(a) ==> Dot(a, x) == 0.0
  {
    if !NonZero(a) {
      var m := Mul(a, x);
      forall i | 0 <= i < |m| ensures m[i] == 0.0 {
        assert a[i] == 0.0;
      }
      SumZero(m);
    }
  }

  /** A prefix splits at any earlier index. */
  lemma {:induction false} PrefixSplit(u: seq<real>, s: nat, e: nat)
    requires s <= e <= |u|
    ensures u[..e] == u[..s] + u[s..e]
  {
  }

  /** Adding and subtracting the same vector cancel. */
  lemma {:induction false} SubAddCancel(q: seq<real>, c: seq<real>)
    requires |q| == |c|
    ensures Sub(Add(q, c), c) == q
    ensures Add(Sub(q, c), c) == q
  {
  }

  // ---------------------------------------------------------------------------
  // Sums

  lemma {:induction false} SumMono(u: seq<real>, v: seq<real>)
    requires |u| == |v|
    requires forall i :: 0 <= i < |u| ==> u[i] <= v[i]
    ensures Sum(u) <= Sum(v)
  {
    if |u| > 0 {
      SumMono(u[..|u| - 1], v[..|v| - 1]);
    }
  }

  /** Sum(u + k v) == Sum(u) + k Sum(v), entrywise. */
  lemma {:induction false} SumAffine(u: seq<real>, v: seq<real>, w: seq<real>, k: real)
    requires |u| == |v| == |w|
    requires forall i :: 0 <= i < |w| ==> w[i] == u[i] + k * v[i]
    ensures Sum(w) == Sum(u) + k * Sum(v)
  {
    if |w| > 0 {
      var n := |w| - 1;
      SumAffine(u[..n], v[..n], w[..n], k);
      MulDist(k, Sum(v[..n]), v[n]);
    }
  }

  /** Sum of k (u_i - v_i) is k (Sum(u) - Sum(v)). */
  lemma {:induction false} SumScaledDiff(u: seq<real>, v: seq<real>, w: seq<real>, k: real)
    requires |u| == |v| == |w|
    requires forall i :: 0 <= i < |w| ==> w[i] == k * (u[i] - v[i])
    ensures Sum(w) == k * (Sum(u) - Sum(v))
  {
    if |w| > 0 {
      var n := |w| - 1;
      SumScaledDiff(u[..n], v[..n], w[..n], k);
      MulDist(k, Sum(u[..n]) - Sum(v[..n]), u[n] - v[n]);
    }
  }

  /** The coordinates k (u_i - v_i). */
  function ScaledDiffs(k: real, u: seq<real>, v: seq<real>): (w: seq<real>)
    requires |u| == |v|
    ensures |w| == |u| && forall i :: 0 <= i < |u| ==> w[i] == k * (u[i] - v[i])
  {
    seq(|u|, i requires 0 <= i < |u| => k * (u[i] - v[i]))
  }

  /** The coordinates k (u_i - v_i) sum to k (Sum(u) - Sum(v)). */
  lemma {:induction false} SumScaledDiffs(k: real, u: seq<real>, v: seq<real>)
    requires |u| == |v|
    ensures Sum(ScaledDiffs(k, u, v)) == k * (Sum(u) - Sum(v))
  {
    SumScaledDiff(u, v, ScaledDiffs(k, u, v), k);
  }

  /** The coordinates k (u_i - v_i) sum to 0 when u and v have equal sums. */
  lemma {:induction false} SumScaledDiffsZero(k: real, u: seq<real>, v: seq<real>)
    requires |u| == |v| && Sum(u) == Sum(v)
    ensures Sum(ScaledDiffs(k, u, v)) == 0.0
  {
    var w := ScaledDiffs(k, u, v);
    SumScaledDiff(u, v, w, k);
    ScaledZero(Sum(u), Sum(v), Sum(w), k);
  }

  /** Scaling by k >= 0 the differences of sequences with Sum(u) >= Sum(v) sums to >= 0. */
  lemma {:induction false} SumScaledDiffNonneg(u: seq<real>, v: seq<real>, w: seq<real>, k: real)
    requires |u| == |v| == |w| && k >= 0.0 && Sum(u) >= Sum(v)
    requires forall i :: 0 <= i < |w| ==> w[i] == k * (u[i] - v[i])
    ensures Sum(w) >= 0.0
  {
    SumScaledDiff(u, v, w, k);
    ScaledNonneg(Sum(u), Sum(v), Sum(w), k);
  }

  lemma {:induction false} ScaledZero(a: real, b: real, c: real, k: real)
    requires a == b && c == k * (a - b)
    ensures c == 0.0
  {
  }

  lemma {:induction false} ScaledNonneg(a: real, b: real, c: real, k: real)
    requires k >= 0.0 && a >= b && c == k * (a - b)
    ensures c >= 0.0
  {
    MulNonneg(k, a - b);
  }

  lemma {:induction false} SumZero(u: seq<real>)
    requires forall i :: 0 <= i < |u| ==> u[i] == 0.0
    ensures Sum(u) == 0.0
  {
    if |u| > 0 {
      SumZero(u[..|u| - 1]);
    }
  }

  lemma {:induction false} SumNonneg(u: seq<real>)
    requires forall i :: 0 <= i < |u| ==> u[i] >= 0.0
    ensures Sum(u) >= 0.0
  {
    SumZero(Zeros(|u|));
    SumMono(Zeros(|u|), u);
  }

  lemma {:induction false} SumAppend(u: seq<real>, v: seq<real>)
    ensures Sum(u + v) == Sum(u) + Sum(v)
  {
    if |v| > 0 {
      var n := |v| - 1;
      assert (u + v)[..|u + v| - 1] == u + v[..n];
      SumAppend(u, v[..n]);
    } else {
      assert u + v == u;
    }
  }

  /** A sum of non-negative entries is zero only if every entry is. */
  lemma {:induction false} SumNonnegZero(u: seq<real>, i: nat)
    requires forall j :: 0 <= j < |u| ==> u[j] >= 0.0
    requires Sum(u) == 0.0 && i < |u|
    ensures u[i] == 0.0
  {
    var n := |u| - 1;
    SumNonneg(u[..n]);
    if i < n {
      SumNonnegZero(u[..n], i);
    }
  }

  // ---------------------------------------------------------------------------
  // Products of reals, one fact per lemma (kept apart so that proofs about
  // sequences reason linearly about the product terms they mention)

  /** Product of two positive reals is positive. */
  lemma {:induction false} MulPos(a: real, b: real)
    requires a > 0.0 && b > 0.0
    ensures a * b > 0.0
  {
  }

  lemma {:induction false} MulNonneg(a: real, b: real)
    requires (a >= 0.0 && b >= 0.0) || (a <= 0.0 && b <= 0.0)
    ensures a * b >= 0.0
  {
    if a == 0.0 || b == 0.0 {
    } else if a > 0.0 {
      MulPos(a, b);
    } else {
      MulPos(-a, -b);
    }
  }

  lemma {:induction false} MulMono(a: real, b: real, c: real)
    requires a <= b && c >= 0.0
    ensures a * c <= b * c
  {
    MulNonneg(b - a, c);
  }

  lemma {:induction false} MulCongr(a: real, a': real, b: real, b': real)
    requires a == a' && b == b'
    ensures a * b == a' * b'
  {
  }

  /** |a * b| <= |a| * |b|, in both directions. */
  lemma {:induction false} MulAbs(a: real, b: real)
    ensures a * b <= Abs(a) * Abs(b)
    ensures -(Abs(a) * Abs(b)) <= a * b
  {
    if a >= 0.0 && b >= 0.0 {
    } else if a < 0.0 && b < 0.0 {
      assert a * b == (-a) * (-b);
    } else if a < 0.0 {
      MulNonneg(-a, b);
      assert a * b == -((-a) * b);
    } else {
      MulNonneg(a, -b);
      assert a * b == -(a * (-b));
    }
  }

  lemma {:induction false} MulDist(k: real, a: real, b: real)
    ensures k * (a - b) == k * a - k * b
    ensures k * (a + b) == k * a + k * b
  {
  }

  lemma {:induction false} DivPos(d: real, c: real)
    requires d > 0.0 && c > 0.0
    ensures d / c > 0.0
  {
    assert (d / c) * c == d;
    if d / c <= 0.0 {
      MulNonneg(-(d / c), c);
    }
  }

  /** (d / c) * c == d for positive c. */
  lemma {:induction false} DivMul(d: real, c: real)
    requires c > 0.0
    ensures (d / c) * c == d
  {
  }

  /** d / c >= t when d >= c * t and c > 0. */
  lemma {:induction false} DivAtLeast(d: real, c: real, t: real)
    requires c > 0.0 && d >= c * t
    ensures d / c >= t
  {
    DivMul(d, c);
    if d / c < t {
      MulLess(d / c, t, c);
    }
  }

  lemma {:induction false} MulLess(a: real, b: real, c: real)
    requires a < b && c > 0.0
    ensures a * c < b * c
  {
    MulPos(b - a, c);
  }

  lemma {:induction false} MulSucc(c: real, t: real)
    ensures (c + 1.0) * t == c * t + t
  {
  }

  // ---------------------------------------------------------------------------
  // Distances and norms

  lemma {:induction false} SquareNonneg(r: real)
    ensures Sq(r) >= 0.0
    ensures r != 0.0 ==> Sq(r) > 0.0
  {
    if r > 0.0 {
      calc { Sq(r); r * r; > { MulPos(r, r); } 0.0; }
    } else if r < 0.0 {
      calc { Sq(r); (-r) * (-r); > { MulPos(-r, -r); } 0.0; }
    } else {
      calc { Sq(r); 0.0 * 0.0; 0.0; }
    }
  }

  lemma {:induction false} SqDiffsNonneg(u: seq<real>, v: seq<real>)
    requires |u| == |v|
    ensures forall i :: 0 <= i < |u| ==> SqDiffs(u, v)[i] >= 0.0
  {
    forall i | 0 <= i < |u| ensures SqDiffs(u, v)[i] >= 0.0 {
      SquareNonneg(u[i] - v[i]);
    }
  }

  lemma {:induction false} SqDistNonneg(u: seq<real>, v: seq<real>)
    requires |u| == |v|
    ensures SqDist(u, v) >= 0.0
  {
    SqDiffsNonneg(u, v);
    SumNonneg(SqDiffs(u, v));
  }

  lemma {:induction false} SqDistSelf(u: seq<real>)
    ensures SqDist(u, u) == 0.0
  {
    SumZero(SqDiffs(u, u));
  }

  lemma {:induction false} SqDistSym(u: seq<real>, v: seq<real>)
    requires |u| == |v|
    ensures SqDist(u, v) == SqDist(v, u)
  {
    assert SqDiffs(u, v) == SqDiffs(v, u);
  }

  /** Squared distance zero means the two points coincide. */
  lemma {:induction false} SqDistZero(u: seq<real>, v: seq<real>)
    requires |u| == |v| && SqDist(u, v) == 0.0
    ensures u == v
  {
    var d := SqDiffs(u, v);
    SqDiffsNonneg(u, v);
    forall i | 0 <= i < |u| ensures u[i] == v[i] {
      SumNonnegZero(d, i);
      SquareNonneg(u[i] - v[i]);

    }
  }

  /** The squared distance of two concatenations splits blockwise. */
  lemma {:induction false} SqDistAppend(u1: seq<real>, u2: seq<real>, v1: seq<real>, v2: seq<real>)
    requires |u1| == |v1| && |u2| == |v2|
    ensures SqDist(u1 + u2, v1 + v2) == SqDist(u1, v1) + SqDist(u2, v2)
  {
    var l, r := SqDiffs(u1 + u2, v1 + v2), SqDiffs(u1, v1) + SqDiffs(u2, v2);
    forall i | 0 <= i < |l| ensures l[i] == r[i] {
      if i < |u1| {
        assert (u1 + u2)[i] == u1[i] && (v1 + v2)[i] == v1[i];
      } else {
        assert (u1 + u2)[i] == u2[i - |u1|] && (v1 + v2)[i] == v2[i - |u1|];
      }
    }
    assert l == r;
    SumAppend(SqDiffs(u1, v1), SqDiffs(u2, v2));
  }

  /** A normal vector with a non-zero entry has a positive squared norm, and conversely. */
  lemma {:induction false} NormSqPositive(a: seq<real>)
    ensures NonZero(a) <==> NormSq(a) > 0.0
  {
    var m := Mul(a, a);
    forall i | 0 <= i < |a| ensures m[i] >= 0.0 && (a[i] != 0.0 ==> m[i] > 0.0) {
      SquareNonneg(a[i]);
    }
    SumNonneg(m);
    if NonZero(a) {
      var i :| 0 <= i < |a| && a[i] != 0.0;
      if NormSq(a) == 0.0 {
        SumNonnegZero(m, i);
      }
    } else {
      SumZero(m);
    }
  }

  /**
   * One coordinate of the cross-term bound: (x - y)^2 = (x - p)^2 + (p - y)^2 + 2(x - p)(p - y),
   * so a lower bound g on the cross term bounds the left side from below.
   */
  lemma {:induction false} CrossTerm(x: real, p: real, y: real, g: real)
    requires (x - p) * (p - y) >= g
    ensures Sq(x - y) >= Sq(x - p) + Sq(p - y) + 2.0 * g
  {
    var s, t := x - p, p - y;
    assert x - y == s + t;
    assert (s + t) * (s + t) == s * s + t * t + 2.0 * (s * t);
  }

  /**
   * The cross-term bound behind every projection proof: if in each coordinate
   * (x_i - y_i)^2 >= (x_i - p_i)^2 + (p_i - y_i)^2 + 2 g_i (which CrossTerm gives from
   * (x_i - p_i)(p_i - y_i) >= g_i), then |x - y|^2 >= |x - p|^2 + |p - y|^2 + 2 * sum(g).
   */
  lemma {:induction false} SumBound(a: seq<real>, b: seq<real>, c: seq<real>, g: seq<real>)
    requires |a| == |b| == |c| == |g|
    requires forall i :: 0 <= i < |c| ==> c[i] >= a[i] + b[i] + 2.0 * g[i]
    ensures Sum(c) >= Sum(a) + Sum(b) + 2.0 * Sum(g)
  {
    if |c| > 0 {
      var n := |c| - 1;
      SumBound(a[..n], b[..n], c[..n], g[..n]);
    }
  }

  lemma {:induction false} CrossTermAt(x: seq<real>, p: seq<real>, y: seq<real>, g: seq<real>, i: nat)
    requires |x| == |p| == |y| == |g| && i < |x|
    requires (x[i] - p[i]) * (p[i] - y[i]) >= g[i]
    ensures SqDiffs(x, y)[i] >= SqDiffs(x, p)[i] + SqDiffs(p, y)[i] + 2.0 * g[i]
  {
    CrossTerm(x[i], p[i], y[i], g[i]);
  }

  lemma {:induction false} CrossTermBound(x: seq<real>, p: seq<real>, y: seq<real>, g: seq<real>)
    requires |x| == |p| == |y| == |g|
    requires forall i :: 0 <= i < |x| ==> (x[i] - p[i]) * (p[i] - y[i]) >= g[i]
    ensures SqDist(x, y) >= SqDist(x, p) + SqDist(p, y) + 2.0 * Sum(g)
  {
    var a, b, c := SqDiffs(x, p), SqDiffs(p, y), SqDiffs(x, y);
    forall i | 0 <= i < |c| ensures c[i] >= a[i] + b[i] + 2.0 * g[i] {
      CrossTermAt(x, p, y, g, i);
    }
    SumBound(a, b, c, g);
  }
}
