/** The anchor walks of the "romb" front engraving (`getUpperPoints` and
    `getLowerPoints` in `src/job/front/front-engrave/romb.ts`, unchanged
    from the earlier revision `src/job/front-engrave/romb.ts`).  Both are
    one walk: step along one axis until the bound, then clamp to the bound
    and turn the overflow into a step across, then step across while below
    the other bound.  The upper walk goes along X first, the lower walk
    along Y. */
module Walks {
  import opened Points

  /** A position of the walk: `along` is the axis stepped first. */
  datatype Pos = Pos(along: real, across: real)

  /** How a distance along becomes a distance across: `getY` multiplies by
      the height multiplier, `getX` divides by it. */
  datatype Convert = Times(m: real) | Over(m: real)

  function Across(c: Convert, d: real): real
    requires c.Over? ==> c.m != 0.0
  {
    match c
    case Times(m) => d * m
    case Over(m) => d / m
  }

  /** The walk: the step along, the bounds along and across, and the
      conversion. */
  datatype Walk = Walk(step: real, alongBound: real, acrossBound: real, conv: Convert)

  /** A positive step and multiplier: the walk then ends. */
  predicate Valid(w: Walk) {
    w.step > 0.0 && w.conv.m > 0.0
  }

  lemma AcrossPositive(c: Convert, d: real)
    requires c.m > 0.0 && d > 0.0
    ensures Across(c, d) > 0.0
  {
    if c.Times? {
      PositiveProduct(d, c.m);
    }
  }

  /** The step across taken once the along bound is reached. */
  function AcrossStep(w: Walk): (s: real)
    requires Valid(w)
    ensures s > 0.0
  {
    AcrossPositive(w.conv, w.step);
    Across(w.conv, w.step)
  }

  /** How many more steps along fit before the bound. */
  function AlongBudget(w: Walk, q: Pos): nat
    requires Valid(w)
  {
    if q.along < w.alongBound then Budget(w.alongBound - q.along, w.step) else 0
  }

  /** How many more steps across fit before the bound. */
  function AcrossBudget(w: Walk, q: Pos): nat
    requires Valid(w)
  {
    if q.across < w.acrossBound then Budget(w.acrossBound - q.across, AcrossStep(w)) else 0
  }

  /** The number of steps of size `d` that start inside a gap of `gap`. */
  function Budget(gap: real, d: real): (n: nat)
    requires gap > 0.0 && d > 0.0
    ensures n as real - 1.0 <= gap / d < n as real
  {
    (gap / d).Floor + 1
  }

  /** A step shrinks the budget by one, or empties it. */
  lemma BudgetStep(gap: real, d: real)
    requires gap > 0.0 && d > 0.0 && gap - d > 0.0
    ensures Budget(gap - d, d) == Budget(gap, d) - 1
  {
    var q := gap / d;
    assert q * d == gap;
    assert (q - 1.0) * d == gap - d;
    QuotientOf(gap - d, d, q - 1.0);
  }

  lemma QuotientOf(a: real, d: real, x: real)
    requires d != 0.0 && x * d == a
    ensures a / d == x
  {
  }

  /** A step along, with room for it, uses up the along budget. */
  lemma AlongShrinks(w: Walk, q: Pos)
    requires Valid(w) && q.along + w.step <= w.alongBound
    ensures AlongBudget(w, Pos(q.along + w.step, q.across)) < AlongBudget(w, q)
  {
    if q.along + w.step < w.alongBound {
      BudgetStep(w.alongBound - q.along, w.step);
    }
  }

  /** A step across that stays below the bound uses up the across budget. */
  lemma AcrossShrinks(w: Walk, q: Pos)
    requires Valid(w) && q.across + AcrossStep(w) < w.acrossBound
    ensures AcrossBudget(w, Pos(q.along, q.across + AcrossStep(w))) < AcrossBudget(w, q)
  {
    BudgetStep(w.acrossBound - q.across, AcrossStep(w));
  }

  /** The points after `q`: `getUpperPoints` / `getLowerPoints` from the
      position `q`. */
  function WalkFrom(w: Walk, q: Pos): (ps: seq<Pos>)
    requires Valid(w)
    decreases AlongBudget(w, q), AcrossBudget(w, q)
  {
    if q.along < w.alongBound && q.along + w.step > w.alongBound then
      // the step along would overflow: clamp, and carry the overflow across
      var overflow := q.along + w.step - w.alongBound;
      var n := Pos(q.along + (w.alongBound - q.along), q.across + Across(w.conv, overflow));
      [n] + WalkFrom(w, n)
    else if q.along + w.step > w.alongBound then
      // already at the bound: step across while below its bound
      var n := Pos(q.along, q.across + AcrossStep(w));
      if n.across < w.acrossBound then
        AcrossShrinks(w, q);
        [n] + WalkFrom(w, n)
      else []
    else
      var n := Pos(q.along + w.step, q.across);
      AlongShrinks(w, q);
      [n] + WalkFrom(w, n)
  }

  /** `b` comes after `a`: further along and not back across, or at the
      same place along and further across. */
  predicate Advances(a: Pos, b: Pos) {
    (b.along > a.along && b.across >= a.across) || (b.along == a.along && b.across > a.across)
  }

  /** The position before the `i`-th point of a walk started at `q`. */
  function Prev(q: Pos, ps: seq<Pos>, i: int): Pos
    requires 0 <= i < |ps|
  {
    if i == 0 then q else ps[i - 1]
  }

  /** One point, then the walk from it. */
  lemma PrevCons(q: Pos, n: Pos, rest: seq<Pos>)
    ensures forall i :: 1 <= i < |[n] + rest| ==> Prev(q, [n] + rest, i) == Prev(n, rest, i - 1)
    ensures forall i :: 1 <= i < |[n] + rest| ==> ([n] + rest)[i] == rest[i - 1]
  {
  }

  /** Every point advances over the one before it, so the walk never
      returns to a position. */
  lemma {:induction false} WalkAdvances(w: Walk, q: Pos)
    requires Valid(w)
    ensures forall i :: 0 <= i < |WalkFrom(w, q)| ==> Advances(Prev(q, WalkFrom(w, q), i), WalkFrom(w, q)[i])
    decreases AlongBudget(w, q), AcrossBudget(w, q)
  {
    var ps := WalkFrom(w, q);
    if ps != [] {
      var n := ps[0];
      if q.along < w.alongBound && q.along + w.step > w.alongBound {
        AcrossPositive(w.conv, q.along + w.step - w.alongBound);
      } else if q.along + w.step > w.alongBound {
        AcrossShrinks(w, q);
      } else {
        AlongShrinks(w, q);
      }
      assert ps == [n] + WalkFrom(w, n);
      WalkAdvances(w, n);
      PrevCons(q, n, WalkFrom(w, n));
    }
  }

  /** Points only move forward: never before the start on either axis,
      and never past the along bound when the start is not. */
  lemma {:induction false} WalkRange(w: Walk, q: Pos)
    requires Valid(w)
    ensures forall i :: 0 <= i < |WalkFrom(w, q)| ==>
              q.along <= WalkFrom(w, q)[i].along && q.across <= WalkFrom(w, q)[i].across
              && (q.along <= w.alongBound ==> WalkFrom(w, q)[i].along <= w.alongBound)
    decreases AlongBudget(w, q), AcrossBudget(w, q)
  {
    var ps := WalkFrom(w, q);
    if ps != [] {
      var n := ps[0];
      if q.along < w.alongBound && q.along + w.step > w.alongBound {
        AcrossPositive(w.conv, q.along + w.step - w.alongBound);
      } else if q.along + w.step > w.alongBound {
        AcrossShrinks(w, q);
      } else {
        AlongShrinks(w, q);
      }
      assert ps == [n] + WalkFrom(w, n);
      WalkRange(w, n);
      PrevCons(q, n, WalkFrom(w, n));
    }
  }

  /** A point that does not advance along advanced across and stays below
      the across bound; only the clamping step can overshoot it. */
  lemma {:induction false} CrossStepsBelow(w: Walk, q: Pos)
    requires Valid(w)
    ensures forall i :: 0 <= i < |WalkFrom(w, q)| && WalkFrom(w, q)[i].along == Prev(q, WalkFrom(w, q), i).along ==> WalkFrom(w, q)[i].across < w.acrossBound
    decreases AlongBudget(w, q), AcrossBudget(w, q)
  {
    var ps := WalkFrom(w, q);
    if ps != [] {
      var n := ps[0];
      if q.along < w.alongBound && q.along + w.step > w.alongBound {
      } else if q.along + w.step > w.alongBound {
        AcrossShrinks(w, q);
      } else {
        AlongShrinks(w, q);
      }
      assert ps == [n] + WalkFrom(w, n);
      CrossStepsBelow(w, n);
      PrevCons(q, n, WalkFrom(w, n));
    }
  }

  /** At or past the along bound the walk only steps across. */
  lemma {:induction false} StaysAtEdge(w: Walk, q: Pos)
    requires Valid(w) && q.along >= w.alongBound
    ensures forall i :: 0 <= i < |WalkFrom(w, q)| ==> WalkFrom(w, q)[i].along == q.along
    decreases AcrossBudget(w, q)
  {
    var ps := WalkFrom(w, q);
    if ps != [] {
      var n := ps[0];
      AcrossShrinks(w, q);
      assert ps == [n] + WalkFrom(w, n);
      StaysAtEdge(w, n);
      PrevCons(q, n, WalkFrom(w, n));
    }
  }

  /** Started before the along bound, the walk is not empty and its last
      point lies on the bound. */
  lemma {:induction false} ReachesEdge(w: Walk, q: Pos)
    requires Valid(w) && q.along < w.alongBound
    ensures |WalkFrom(w, q)| >= 1 && WalkFrom(w, q)[|WalkFrom(w, q)| - 1].along == w.alongBound
    decreases AlongBudget(w, q)
  {
    var ps := WalkFrom(w, q);
    var n := ps[0];
    assert ps == [n] + WalkFrom(w, n);
    var rest := WalkFrom(w, n);
    if q.along + w.step > w.alongBound {
      assert n.along == w.alongBound;
      StaysAtEdge(w, n);
      if rest != [] {
        assert rest[|rest| - 1].along == n.along;
      }
    } else {
      AlongShrinks(w, q);
      if n.along < w.alongBound {
        ReachesEdge(w, n);
      } else {
        StaysAtEdge(w, n);
        if rest != [] {
          assert rest[|rest| - 1].along == n.along;
        }
      }
    }
    assert ps[|ps| - 1] == if rest == [] then n else rest[|rest| - 1];
  }
}
