/**
 * The water-filling threshold behind the simplex and L1-ball projections.
 *
 * Projecting x onto {p >= 0, sum(p) == alpha} amounts to finding a level t with
 * sum_i max(x_i - t, 0) == alpha and soft-thresholding x at t. The level is found
 * by an active-set iteration: start with every coordinate active, take the level
 * that spreads the excess (sum of the active entries - alpha) evenly over them,
 * drop the active coordinates that fall at or below that level, and repeat until
 * nothing is dropped. Each round drops at least one coordinate, the level never
 * decreases, and at the fixed point the active set is exactly {i : x_i > t}.
 */
module WaterFilling {
  import opened Vectors

  /** Sum of the entries of x whose mask entry is set. */
  function ActiveSum(x: seq<real>, m: seq<bool>): real
    requires |x| == |m|
  {
    if |x| == 0 then 0.0
    else ActiveSum(x[..|x| - 1], m[..|m| - 1]) + (if m[|m| - 1] then x[|x| - 1] else 0.0)
  }

  /** Number of set mask entries. */
  function ActiveCount(m: seq<bool>): nat
  {
    if |m| == 0 then 0 else ActiveCount(m[..|m| - 1]) + (if m[|m| - 1] then 1 else 0)
  }

  /** Sum over the active coordinates of how far each lies above level t. */
  function Excess(x: seq<real>, m: seq<bool>, t: real): real
    requires |x| == |m|
  {
    if |x| == 0 then 0.0
    else Excess(x[..|x| - 1], m[..|m| - 1], t) + (if m[|m| - 1] then x[|x| - 1] - t else 0.0)
  }

  /** The level that spreads the excess of the active entries evenly over them. */
  function Level(x: seq<real>, m: seq<bool>, alpha: real): real
    requires |x| == |m| && ActiveCount(m) > 0
  {
    (ActiveSum(x, m) - alpha) / (ActiveCount(m) as real)
  }

  /** Keep active only the active coordinates strictly above level t. */
  function Prune(x: seq<real>, m: seq<bool>, t: real): (m': seq<bool>)
    requires |x| == |m|
    ensures |m'| == |m| && forall i :: 0 <= i < |m| ==> m'[i] == (m[i] && x[i] > t)
  {
    seq(|m|, i requires 0 <= i < |m| => m[i] && x[i] > t)
  }

  function AllActive(n: nat): (m: seq<bool>)
    ensures |m| == n && forall i :: 0 <= i < n ==> m[i]
  {
    seq(n, i => true)
  }

  /**
   * What every round of the iteration keeps: some coordinate is active and every
   * dropped coordinate lies at or below the current level.
   */
  predicate Inv(x: seq<real>, m: seq<bool>, alpha: real)
  {
    |x| == |m| && alpha > 0.0 && ActiveCount(m) > 0 &&
    forall i :: 0 <= i < |m| && !m[i] ==> x[i] <= Level(x, m, alpha)
  }

  /** The level reached by iterating from mask m; soft-thresholding at it sums to alpha. */
  function Threshold(x: seq<real>, m: seq<bool>, alpha: real): (t: real)
    requires Inv(x, m, alpha)
    ensures Sum(PosPart(x, t)) == alpha
    decreases ActiveCount(m)
  {
    var t := Level(x, m, alpha);
    var m' := Prune(x, m, t);
    if m' == m then
      FixpointSum(x, m, alpha);
      t
    else
      PruneStep(x, m, alpha);
      Threshold(x, m', alpha)
  }

  /** The simplex threshold of a non-empty x for a positive alpha. */
  function SimplexThreshold(x: seq<real>, alpha: real): (t: real)
    requires |x| > 0 && alpha > 0.0
    ensures Sum(PosPart(x, t)) == alpha
  {
    AllActiveCount(|x|);
    Threshold(x, AllActive(|x|), alpha)
  }

  // ---------------------------------------------------------------------------
  // Lemmas

  lemma {:induction false} AllActiveCount(n: nat)
    ensures ActiveCount(AllActive(n)) == n
  {
    if n > 0 {
      assert AllActive(n)[..n - 1] == AllActive(n - 1);
      AllActiveCount(n - 1);
    }
  }

  lemma {:induction false} NoneActiveSum(x: seq<real>, m: seq<bool>)
    requires |x| == |m| && ActiveCount(m) == 0
    ensures ActiveSum(x, m) == 0.0
  {
    if |x| > 0 {
      NoneActiveSum(x[..|x| - 1], m[..|m| - 1]);
    }
  }

  lemma {:induction false} LevelTimesCount(x: seq<real>, m: seq<bool>, alpha: real)
    requires |x| == |m| && ActiveCount(m) > 0
    ensures Level(x, m, alpha) * (ActiveCount(m) as real) == ActiveSum(x, m) - alpha
  {
    DivMul(ActiveSum(x, m) - alpha, ActiveCount(m) as real);
  }

  lemma {:induction false} ExcessShift(x: seq<real>, m: seq<bool>, t: real)
    requires |x| == |m|
    ensures Excess(x, m, t) == ActiveSum(x, m) - (ActiveCount(m) as real) * t
  {
    if |x| > 0 {
      var n := |x| - 1;
      ExcessShift(x[..n], m[..n], t);
      if m[n] {
        MulSucc(ActiveCount(m[..n]) as real, t);
      }
    }
  }

  /**
   * When the mask is exactly {i : x_i > t}, soft-thresholding at t keeps the active
   * entries shifted down by t and zeroes the rest.
   */
  lemma {:induction false} ActiveThresholdSum(x: seq<real>, m: seq<bool>, t: real)
    requires |x| == |m|
    requires forall i :: 0 <= i < |m| ==> (m[i] <==> x[i] > t)
    ensures Sum(PosPart(x, t)) == Excess(x, m, t)
  {
    if |x| > 0 {
      var n := |x| - 1;
      assert PosPart(x, t)[..n] == PosPart(x[..n], t);
      ActiveThresholdSum(x[..n], m[..n], t);
    }
  }

  /** At the level of a mask, the active coordinates' excess is alpha. */
  lemma {:induction false} LevelExcess(x: seq<real>, m: seq<bool>, alpha: real)
    requires |x| == |m| && ActiveCount(m) > 0
    ensures Excess(x, m, Level(x, m, alpha)) == alpha
  {
    var t := Level(x, m, alpha);
    ExcessShift(x, m, t);
    LevelTimesCount(x, m, alpha);
    assert (ActiveCount(m) as real) * t == t * (ActiveCount(m) as real);
  }

  /** At the fixed point of the iteration the level is the simplex threshold. */
  lemma {:induction false} FixpointSum(x: seq<real>, m: seq<bool>, alpha: real)
    requires Inv(x, m, alpha)
    requires Prune(x, m, Level(x, m, alpha)) == m
    ensures Sum(PosPart(x, Level(x, m, alpha))) == alpha
  {
    var t := Level(x, m, alpha);
    forall i | 0 <= i < |m| ensures m[i] <==> x[i] > t {
      assert Prune(x, m, t)[i] == m[i];
    }
    ActiveThresholdSum(x, m, t);
    LevelExcess(x, m, alpha);
  }

  /**
   * Dropping the coordinates at or below t never lowers the excess above t, and
   * drops at least one coordinate when the mask changes.
   */
  lemma {:induction false} PruneLoss(x: seq<real>, m: seq<bool>, t: real)
    requires |x| == |m|
    ensures ActiveCount(Prune(x, m, t)) <= ActiveCount(m)
    ensures Excess(x, m, t) <= Excess(x, Prune(x, m, t), t)
    ensures Prune(x, m, t) != m ==> ActiveCount(Prune(x, m, t)) < ActiveCount(m)
  {
    var m' := Prune(x, m, t);
    if |x| > 0 {
      var n := |x| - 1;
      assert m'[..n] == Prune(x[..n], m[..n], t);
      PruneLoss(x[..n], m[..n], t);
      if m' != m && m'[..n] == m[..n] {
        assert m'[n] != m[n];
      }
    }
  }

  /** One round of the iteration keeps its invariant and drops a coordinate. */
  lemma {:induction false} PruneStep(x: seq<real>, m: seq<bool>, alpha: real)
    requires Inv(x, m, alpha)
    requires Prune(x, m, Level(x, m, alpha)) != m
    ensures Inv(x, Prune(x, m, Level(x, m, alpha)), alpha)
    ensures ActiveCount(Prune(x, m, Level(x, m, alpha))) < ActiveCount(m)
    ensures Level(x, m, alpha) <= Level(x, Prune(x, m, Level(x, m, alpha)), alpha)
  {
    var t := Level(x, m, alpha);
    var m' := Prune(x, m, t);
    PruneLoss(x, m, t);
    LevelExcess(x, m, alpha);
    ExcessShift(x, m', t);
    if ActiveCount(m') == 0 {
      NoneActiveSum(x, m');
      assert false;
    }
    var c' := ActiveCount(m') as real;
    assert ActiveSum(x, m') - alpha >= c' * t;
    DivAtLeast(ActiveSum(x, m') - alpha, c', t);
  }

  /** A round that drops something leaves the threshold it leads to unchanged. */
  lemma {:induction false} ThresholdStep(x: seq<real>, m: seq<bool>, alpha: real)
    requires Inv(x, m, alpha)
    requires Prune(x, m, Level(x, m, alpha)) != m
    ensures Inv(x, Prune(x, m, Level(x, m, alpha)), alpha)
    ensures ActiveCount(Prune(x, m, Level(x, m, alpha))) < ActiveCount(m)
    ensures Threshold(x, Prune(x, m, Level(x, m, alpha)), alpha) == Threshold(x, m, alpha)
  {
    PruneStep(x, m, alpha);
  }

  /** A round that drops nothing has reached the threshold. */
  lemma {:induction false} ThresholdFixed(x: seq<real>, m: seq<bool>, alpha: real)
    requires Inv(x, m, alpha)
    requires Prune(x, m, Level(x, m, alpha)) == m
    ensures Threshold(x, m, alpha) == Level(x, m, alpha)
  {
  }
}
