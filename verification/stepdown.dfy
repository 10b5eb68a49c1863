/** `getStepdownDepths` (`src/job/helpers.ts`): split a cut of depth
    `finalDepth` into equal passes no deeper than `stepdown`. */
module Stepdown {

  /** `Math.ceil`. */
  function Ceil(x: real): (n: int)
    ensures x <= n as real < x + 1.0
  {
    if x.Floor as real == x then x.Floor else x.Floor + 1
  }

  /** `passes`: the fewest passes of at most `stepdown` each; zero or
      negative when the final depth is not below the surface. */
  function Passes(stepdown: real, finalDepth: real): (n: int)
    requires stepdown > 0.0
    ensures finalDepth > 0.0 ==> n >= 1
    ensures finalDepth == 0.0 ==> n == 0
    ensures finalDepth < 0.0 ==> n <= 0
  {
    Ceil(finalDepth / stepdown)
  }

  /** `perPass`: the depth of one pass. */
  function PerPass(stepdown: real, finalDepth: real): (d: real)
    requires stepdown > 0.0 && finalDepth > 0.0
    ensures 0.0 < d <= stepdown
    ensures d * Passes(stepdown, finalDepth) as real == finalDepth
  {
    var n := Passes(stepdown, finalDepth) as real;
    var d := finalDepth / n;
    assert finalDepth / stepdown <= n;
    PerPassBound(finalDepth, stepdown, n);
    d
  }

  /** The depths the loop visits, in exact arithmetic: one multiple of
      `perPass` per pass, going down, ending at `-finalDepth`; none when the
      final depth is not below the surface. */
  function Depths(stepdown: real, finalDepth: real): (ds: seq<real>)
    requires stepdown > 0.0
    ensures finalDepth <= 0.0 ==> ds == []
    ensures finalDepth > 0.0 ==> |ds| == Passes(stepdown, finalDepth)
  {
    if finalDepth <= 0.0 then []
    else
      var p := PerPass(stepdown, finalDepth);
      seq(Passes(stepdown, finalDepth), i => -((i + 1) as real) * p)
  }

  /** The loop of `getStepdownDepths`: start at `-perPass` and keep going
      down by `perPass` while not below `-finalDepth`.  When the final depth
      is not below the surface the loop never runs: `passes` is 0 or
      negative, so `perPass` is 0/0 (NaN), x/-0 (+Infinity) or positive
      (`NoPassAboveSurface`), and the first comparison fails. */
  method StepdownDepths(stepdown: real, finalDepth: real) returns (depths: seq<real>)
    requires stepdown > 0.0
    ensures depths == Depths(stepdown, finalDepth)
    ensures finalDepth <= 0.0 ==> depths == []
  {
    depths := [];
    if finalDepth <= 0.0 {
      return;
    }
    var passes := Passes(stepdown, finalDepth);
    var perPass := PerPass(stepdown, finalDepth);
    var depth := -perPass;
    var k: nat := 0;
    while depth >= -finalDepth
      invariant k <= passes
      invariant depth == -((k + 1) as real) * perPass
      invariant depths == seq(k, i => -((i + 1) as real) * perPass)
      decreases passes - k
    {
      MultipleOrder(k + 1, passes, perPass);
      ghost var next := seq(k + 1, i => -((i + 1) as real) * perPass);
      assert forall i :: 0 <= i < k ==> next[i] == depths[i];
      assert next[k] == depth;
      assert depths + [depth] == next;
      depths := depths + [depth];
      depth := depth - perPass;
      k := k + 1;
    }
    MultipleOrder(k + 1, passes, perPass);
  }

  /** Above the surface with a non-zero pass count, `perPass` is positive
      and the first depth `-perPass` is already above `-finalDepth`, so the
      loop of `getStepdownDepths` adds nothing. */
  lemma NoPassAboveSurface(stepdown: real, finalDepth: real)
    requires stepdown > 0.0 && finalDepth < 0.0 && Passes(stepdown, finalDepth) != 0
    ensures var n := Passes(stepdown, finalDepth) as real;
            finalDepth / n > 0.0 && !(-(finalDepth / n) >= -finalDepth)
  {
    var n := Passes(stepdown, finalDepth) as real;
    assert n < 0.0;
    assert (finalDepth / n) * n == finalDepth;
  }

  /** Ordering of multiples of a positive step. */
  lemma MultipleOrder(m: nat, n: nat, p: real)
    requires p > 0.0
    ensures -(m as real) * p >= -(n as real) * p <==> m <= n
  {
    if m <= n {
      assert (n as real) * p - (m as real) * p == ((n - m) as real) * p;
      assert ((n - m) as real) * p >= 0.0 * p;
    } else {
      assert (m as real) * p - (n as real) * p == ((m - n) as real) * p;
      assert ((m - n) as real) * p > 0.0 * p;
    }
  }

  /** final / n <= stepdown whenever n >= final / stepdown. */
  lemma PerPassBound(finalDepth: real, stepdown: real, n: real)
    requires finalDepth > 0.0 && stepdown > 0.0 && n >= finalDepth / stepdown && n > 0.0
    ensures 0.0 < finalDepth / n <= stepdown
  {
    assert n * stepdown >= (finalDepth / stepdown) * stepdown;
    assert finalDepth <= n * stepdown;
  }

  /** The last depth is exactly `-finalDepth`. */
  lemma LastIsFinal(stepdown: real, finalDepth: real)
    requires stepdown > 0.0 && finalDepth > 0.0
    ensures var ds := Depths(stepdown, finalDepth); |ds| >= 1 && ds[|ds| - 1] == -finalDepth
  {
    var p := PerPass(stepdown, finalDepth);
    var n := Passes(stepdown, finalDepth);
    assert -(n as real) * p == -(p * n as real);
  }

  /** Consecutive depths differ by exactly `perPass`, which is at most
      `stepdown`; the first is `-perPass`. */
  lemma EqualSteps(stepdown: real, finalDepth: real)
    requires stepdown > 0.0 && finalDepth > 0.0
    ensures var ds, p := Depths(stepdown, finalDepth), PerPass(stepdown, finalDepth);
            ds[0] == -p && p <= stepdown
            && forall i :: 0 < i < |ds| ==> ds[i - 1] - ds[i] == p
  {
  }

  /** Depth `i` is `i + 1` passes down. */
  lemma DepthAt(stepdown: real, finalDepth: real, i: nat)
    requires stepdown > 0.0 && finalDepth > 0.0 && i < |Depths(stepdown, finalDepth)|
    ensures Depths(stepdown, finalDepth)[i] == -((i + 1) as real) * PerPass(stepdown, finalDepth)
  {
  }

  /** All passes down to the last of `n` passes of `p`, `f` in total, lie
      in [-f, 0). */
  lemma MultipleInRange(i: nat, n: nat, p: real, f: real)
    requires p > 0.0 && i < n && p * n as real == f
    ensures -f <= -((i + 1) as real) * p < 0.0
  {
    MultipleOrder(i + 1, n, p);
    MultipleOrder(i + 1, 0, p);
    assert -(n as real) * p == -f;
  }

  /** The depths strictly decrease. */
  lemma DepthsDescend(stepdown: real, finalDepth: real)
    requires stepdown > 0.0 && finalDepth > 0.0
    ensures var ds := Depths(stepdown, finalDepth);
            forall i, j :: 0 <= i < j < |ds| ==> ds[j] < ds[i]
  {
    var ds, p := Depths(stepdown, finalDepth), PerPass(stepdown, finalDepth);
    forall i, j | 0 <= i < j < |ds|
      ensures ds[j] < ds[i]
    {
      DepthAt(stepdown, finalDepth, i);
      DepthAt(stepdown, finalDepth, j);
      MultipleOrder(j + 1, i + 1, p);
    }
  }

  /** The depths lie in [-finalDepth, 0). */
  lemma DepthsBounded(stepdown: real, finalDepth: real)
    requires stepdown > 0.0 && finalDepth > 0.0
    ensures var ds := Depths(stepdown, finalDepth);
            forall i :: 0 <= i < |ds| ==> -finalDepth <= ds[i] < 0.0
  {
    var ds, p, n := Depths(stepdown, finalDepth), PerPass(stepdown, finalDepth), Passes(stepdown, finalDepth);
    forall i | 0 <= i < |ds|
      ensures -finalDepth <= ds[i] < 0.0
    {
      DepthAt(stepdown, finalDepth, i);
      MultipleInRange(i, n, p, finalDepth);
    }
  }

  /** The depths strictly decrease and all lie in [-finalDepth, 0). */
  lemma DepthsInRange(stepdown: real, finalDepth: real)
    requires stepdown > 0.0
    ensures var ds := Depths(stepdown, finalDepth);
            (forall i, j :: 0 <= i < j < |ds| ==> ds[j] < ds[i])
            && (forall i :: 0 <= i < |ds| ==> -finalDepth <= ds[i] < 0.0)
  {
    if finalDepth > 0.0 {
      DepthsDescend(stepdown, finalDepth);
      DepthsBounded(stepdown, finalDepth);
    }
  }

  /** A 20 mm cut at 10 mm stepdown takes passes at -10 and -20. */
  lemma TwoPassExample()
    ensures Depths(10.0, 20.0) == [-10.0, -20.0]
  {
    assert Passes(10.0, 20.0) == 2;
  }

  /** A 5 mm cut at 10 mm stepdown takes one pass at -5. */
  lemma ShallowExample()
    ensures Depths(10.0, 5.0) == [-5.0]
  {
    assert Passes(10.0, 5.0) == 1;
  }

  /** A 1.5 mm cut at 5 mm stepdown takes one pass at -1.5. */
  lemma FractionExample()
    ensures Depths(5.0, 1.5) == [-1.5]
  {
    assert Passes(5.0, 1.5) == 1;
  }
}
