/** Strike arithmetic: the step of a ladder, the nearest listed strike, rounding to the step and snapping. */
module Strikes {
  import opened Rounding

  const DEFAULT_STEP := 50.0
  /** Larger than any gap the step detection considers. */
  const NO_GAP := 999999.0

  function Distance(a: real, b: real): (d: real)
    ensures d >= 0.0
  {
    Abs(a - b)
  }

  /** The smaller of `best` and a positive gap. */
  function NarrowBy(best: real, gap: real): real
  {
    if gap > 0.0 && gap < best then gap else best
  }

  /** The smallest positive gap between neighbours. */
  function MinGap(strikes: seq<real>): (g: real)
    ensures 0.0 < g <= NO_GAP
  {
    if |strikes| < 2 then NO_GAP else
    NarrowBy(MinGap(strikes[..|strikes| - 1]), Distance(strikes[|strikes| - 1], strikes[|strikes| - 2]))
  }

  function StepOf(strikes: seq<real>): (step: real)
    ensures step > 0.0
  {
    if |strikes| < 2 || MinGap(strikes) == NO_GAP then DEFAULT_STEP else MinGap(strikes)
  }

  /** A positive gap between two neighbours, of a size the detection considers. */
  predicate IsGap(strikes: seq<real>, i: int, gap: real)
  {
    1 <= i < |strikes| && gap == Distance(strikes[i], strikes[i - 1]) && 0.0 < gap < 999999.0
  }

  lemma {:induction false} MinGapMeaning(strikes: seq<real>)
    ensures MinGap(strikes) < NO_GAP ==> exists i :: IsGap(strikes, i, MinGap(strikes))
    ensures forall i, gap :: IsGap(strikes, i, gap) ==> MinGap(strikes) <= gap
  {
    if |strikes| >= 2 {
      hide Distance;
      var n := |strikes| - 1;
      var front := strikes[..n];
      MinGapMeaning(front);
      assert forall i, gap :: IsGap(front, i, gap) ==> IsGap(strikes, i, gap);
      assert forall i, gap :: IsGap(strikes, i, gap) && i < n ==> IsGap(front, i, gap);
      if MinGap(strikes) < NO_GAP && MinGap(strikes) != MinGap(front) {
        assert IsGap(strikes, n, MinGap(strikes));
      }
    }
  }

  /** The step is the smallest positive gap between neighbours, or 50 if there is none. */
  lemma StepIsSmallestGap(strikes: seq<real>)
    ensures forall i, gap :: IsGap(strikes, i, gap) ==> StepOf(strikes) <= gap
    ensures (exists i, gap :: IsGap(strikes, i, gap)) ==> exists i :: IsGap(strikes, i, StepOf(strikes))
    ensures (forall i, gap :: !IsGap(strikes, i, gap)) ==> StepOf(strikes) == 50.0
  {
    hide MinGap, IsGap;
    MinGapMeaning(strikes);
    GapsBelow(strikes);
  }

  lemma GapsBelow(strikes: seq<real>)
    ensures forall i, gap :: IsGap(strikes, i, gap) ==> gap < NO_GAP && |strikes| >= 2
  {
  }

  /** `detect_strike_step`. */
  method DetectStrikeStep(strikes: seq<real>) returns (step: real)
    ensures step == StepOf(strikes)
  {
    if |strikes| < 2 {
      return DEFAULT_STEP;
    }
    var least := NO_GAP;
    for i := 1 to |strikes|
      invariant least == MinGap(strikes[..i])
    {
      assert strikes[..i + 1][..i] == strikes[..i];
      var gap := Distance(strikes[i], strikes[i - 1]);
      if gap > 0.0 && gap < least {
        least := gap;
      }
    }
    assert strikes[..|strikes|] == strikes;
    step := if least == NO_GAP then DEFAULT_STEP else least;
  }

  /** The listed strike nearest to a price; the earliest one among equals. */
  function Nearest(strikes: seq<real>, px: real): (best: real)
    requires strikes != []
  {
    if |strikes| == 1 then strikes[0] else
    var best := Nearest(strikes[..|strikes| - 1], px);
    var last := strikes[|strikes| - 1];
    if Distance(last, px) < Distance(best, px) then last else best
  }

  /** Position of the nearest strike: among equally near ones, the first. */
  predicate FirstNearest(strikes: seq<real>, px: real, i: int)
    requires strikes != []
  {
    && 0 <= i < |strikes| && strikes[i] == Nearest(strikes, px)
    && forall j :: 0 <= j < i ==> Distance(strikes[i], px) < Distance(strikes[j], px)
  }

  lemma {:induction false} NearestIsNearest(strikes: seq<real>, px: real)
    requires strikes != []
    ensures Nearest(strikes, px) in strikes
    ensures exists i :: FirstNearest(strikes, px, i)
    ensures forall i :: 0 <= i < |strikes| ==> Distance(Nearest(strikes, px), px) <= Distance(strikes[i], px)
  {
    if |strikes| > 1 {
      hide Distance;
      var front := strikes[..|strikes| - 1];
      NearestIsNearest(front, px);
      assert forall i :: 0 <= i < |front| ==> strikes[i] == front[i];
      assert Nearest(strikes, px) == strikes[|strikes| - 1] || Nearest(strikes, px) == Nearest(front, px);
      var k :| FirstNearest(front, px, k);
      if Nearest(strikes, px) == Nearest(front, px) {
        assert FirstNearest(strikes, px, k);
      } else {
        assert FirstNearest(strikes, px, |strikes| - 1);
      }
    } else {
      assert FirstNearest(strikes, px, 0);
    }
  }

  /** `nearest_strike`, which answers zero for an empty chain. */
  method NearestStrike(strikes: seq<real>, px: real) returns (best: real)
    ensures best == if strikes == [] then 0.0 else Nearest(strikes, px)
  {
    if |strikes| == 0 {
      return 0.0;
    }
    best := strikes[0];
    for i := 1 to |strikes|
      invariant best == Nearest(strikes[..i], px)
    {
      assert strikes[..i + 1][..i] == strikes[..i];
      if Distance(strikes[i], px) < Distance(best, px) {
        best := strikes[i];
      }
    }
    assert strikes[..|strikes|] == strikes;
  }

  /** `round_to_gap_and_snap`: the listed strike nearest to the price rounded to a multiple of the step. */
  function Snap(strikes: seq<real>, px: real): real
    requires strikes != []
  {
    var step := StepOf(strikes);
    Nearest(strikes, Times(Round(px / step) as real, step))
  }

  method RoundToGapAndSnap(strikes: seq<real>, px: real) returns (atm: real)
    ensures atm == if strikes == [] then 0.0 else Snap(strikes, px)
  {
    if |strikes| == 0 {
      return 0.0;
    }
    var step := DetectStrikeStep(strikes);
    atm := NearestStrike(strikes, Times(Round(px / step) as real, step));
  }

  // ---------------------------------------------------------------------------------------
  // How good the snapped strike is
  // ---------------------------------------------------------------------------------------

  lemma RoundedIsClose(px: real, step: real)
    requires step > 0.0
    ensures Distance(Times(Round(px / step) as real, step), px) <= step / 2.0
  {
    hide Times, Round;
    var x, k := px / step, Round(px / step) as real;
    TimesQuotient(px, step);
    TimesAdd(k, x, step);
    TimesBound(k - x, -0.5, 0.5, step);
    TimesUnit(step);
  }

  lemma Triangle(a: real, b: real, c: real)
    ensures Distance(a, c) <= Distance(a, b) + Distance(b, c) && Distance(a, b) == Distance(b, a)
  {
  }

  /** The snapped strike is listed, and no listed strike beats it by more than one step. */
  lemma SnapWithinOneStep(strikes: seq<real>, px: real, i: nat)
    requires i < |strikes|
    ensures Snap(strikes, px) in strikes
    ensures Distance(Snap(strikes, px), px) <= Distance(strikes[i], px) + StepOf(strikes)
  {
    hide Nearest, StepOf, Distance, Times, Round;
    var step := StepOf(strikes);
    var rounded := Times(Round(px / step) as real, step);
    NearestIsNearest(strikes, rounded);
    RoundedIsClose(px, step);
    Triangle(Snap(strikes, px), rounded, px);
    Triangle(strikes[i], px, rounded);
    Triangle(rounded, px, px);
  }

  /** Strikes that are consecutive multiples of a step. */
  ghost predicate Regular(strikes: seq<real>, first: int, step: real)
  {
    step > 0.0 && forall i :: 0 <= i < |strikes| ==> strikes[i] == Times((first + i) as real, step)
  }

  lemma {:induction false} RegularGap(strikes: seq<real>, first: int, step: real)
    requires Regular(strikes, first, step) && step < NO_GAP
    ensures |strikes| >= 2 ==> MinGap(strikes) == step
  {
    hide Times;
    if |strikes| >= 2 {
      var n := |strikes| - 1;
      var front := strikes[..n];
      assert forall i :: 0 <= i < n ==> front[i] == strikes[i];
      RegularGap(front, first, step);
      TimesAdd((first + n) as real, (first + n - 1) as real, step);
      TimesUnit(step);
      assert strikes[n] - strikes[n - 1] == step;
    }
  }

  // ---------------------------------------------------------------------------------------
  // Exactly when the snapped strike is a nearest one
  // ---------------------------------------------------------------------------------------

  predicate Ascends(strikes: seq<real>)
  {
    forall i, j :: 0 <= i < j < |strikes| ==> strikes[i] < strikes[j]
  }

  /** Whatever the price, no listed strike beats the snapped one. */
  ghost predicate AlwaysNearest(strikes: seq<real>)
    requires strikes != []
  {
    forall px, i :: 0 <= i < |strikes| ==> Distance(Snap(strikes, px), px) <= Distance(strikes[i], px)
  }

  /** Two strikes of this sum have their midpoint on a rounding boundary, between `k` and `k + 1` steps. */
  predicate BoundaryAt(sum: real, step: real, k: int)
  {
    sum == Times((2 * k + 1) as real, step)
  }

  ghost predicate OnBoundary(sum: real, step: real)
  {
    exists k :: BoundaryAt(sum, step, k)
  }

  /** The midpoint of every pair of neighbours is a rounding boundary. */
  ghost predicate MidpointsOnBoundaries(strikes: seq<real>)
  {
    forall i :: 0 <= i < |strikes| - 1 ==> OnBoundary(strikes[i] + strikes[i + 1], StepOf(strikes))
  }

  lemma Closer(a: real, b: real, x: real)
    requires a < b
    ensures Distance(a, x) <= Distance(b, x) <==> x + x <= a + b
    ensures Distance(b, x) <= Distance(a, x) <==> a + b <= x + x
  {
  }

  lemma TimesMonotone(u: real, v: real, step: real)
    requires step > 0.0
    ensures Times(u, step) <= Times(v, step) <==> u <= v
  {
  }

  lemma ParityGap(k: int, m: int)
    ensures (2 * k) as real <= (2 * m + 1) as real ==> (2 * k) as real + 1.0 <= (2 * m + 1) as real
    ensures (2 * m + 1) as real <= (2 * k) as real ==> (2 * m + 1) as real + 1.0 <= (2 * k) as real
  {
    if k <= m {
      assert 2 * k + 1 <= 2 * m + 1;
    } else {
      assert 2 * m + 1 + 1 <= 2 * k;
    }
  }

  /** An even number of steps on one side of an odd number is a whole step away from it. */
  lemma OddGap(k: int, m: int, step: real)
    requires step > 0.0
    ensures var even, odd := Times((2 * k) as real, step), Times((2 * m + 1) as real, step);
      (even <= odd ==> even + step <= odd) && (odd <= even ==> odd + step <= even)
  {
    hide Times;
    var even, odd := (2 * k) as real, (2 * m + 1) as real;
    ParityGap(k, m);
    TimesMonotone(even, odd, step);
    TimesMonotone(odd, even, step);
    TimesMonotone(even + 1.0, odd, step);
    TimesMonotone(odd + 1.0, even, step);
    TimesAdd(even, 1.0, step);
    TimesAdd(odd, 1.0, step);
    TimesUnit(step);
  }

  lemma TwiceRounded(px: real, step: real)
    requires step > 0.0
    ensures var twice := Times((2 * Round(px / step)) as real, step);
      && twice == 2.0 * Times(Round(px / step) as real, step)
      && twice - step <= px + px <= twice + step
  {
    var k := Round(px / step);
    RoundedIsClose(px, step);
    hide Times, Round;
    TimesAdd(k as real, k as real, step);
    assert (2 * k) as real == k as real + k as real;
  }

  lemma SnapIsListed(strikes: seq<real>, px: real) returns (j: nat)
    requires strikes != []
    ensures j < |strikes| && strikes[j] == Snap(strikes, px)
    ensures forall i :: 0 <= i < |strikes| ==>
      var rounded := Times(Round(px / StepOf(strikes)) as real, StepOf(strikes));
      Distance(strikes[j], rounded) <= Distance(strikes[i], rounded)
  {
    hide Nearest, StepOf, Distance, Times, Round;
    var rounded := Times(Round(px / StepOf(strikes)) as real, StepOf(strikes));
    NearestIsNearest(strikes, rounded);
    j :| 0 <= j < |strikes| && strikes[j] == Snap(strikes, px);
  }

  lemma BoundariesSuffice(strikes: seq<real>, px: real, i: nat)
    requires Ascends(strikes) && MidpointsOnBoundaries(strikes) && i < |strikes|
    ensures Distance(Snap(strikes, px), px) <= Distance(strikes[i], px)
  {
    hide Nearest, StepOf, Distance, Times, Round, Snap;
    var step := StepOf(strikes);
    var k := Round(px / step);
    var rounded := Times(k as real, step);
    var j := SnapIsListed(strikes, px);
    TwiceRounded(px, step);
    if j < i {
      var m :| BoundaryAt(strikes[j] + strikes[j + 1], step, m);
      Closer(strikes[j], strikes[j + 1], rounded);
      OddGap(k, m, step);
      Closer(strikes[j], strikes[i], px);
    } else if i < j {
      var m :| BoundaryAt(strikes[j - 1] + strikes[j], step, m);
      Closer(strikes[j - 1], strikes[j], rounded);
      OddGap(k, m, step);
      Closer(strikes[i], strikes[j], px);
    }
  }

  lemma RoundWithin(y: real, k: int)
    requires k as real - 0.5 < y < k as real + 0.5
    ensures Round(y) == k
  {
  }

  lemma QuotientOfTimes(y: real, step: real)
    requires step > 0.0
    ensures Times(y, step) / step == y
  {
  }

  /** Off the boundaries, the midpoint in steps lies strictly within half a step of an integer. */
  lemma StrictlyRounded(sum: real, step: real) returns (x: real, k: int)
    requires step > 0.0 && !OnBoundary(sum, step)
    ensures Times(x, step) == sum / 2.0 && k as real - 0.5 < x < k as real + 0.5
  {
    x := sum / 2.0 / step;
    k := Round(x);
    TimesQuotient(sum / 2.0, step);
    hide Times, Round;
    TimesAdd(x, x, step);
    assert !BoundaryAt(sum, step, k) && !BoundaryAt(sum, step, k - 1);
    assert (2 * k + 1) as real == 2.0 * k as real + 1.0;
    assert (2 * (k - 1) + 1) as real == 2.0 * k as real - 1.0;
  }

  /** A pair of neighbours whose midpoint is not a boundary has a price between them that is snapped wrongly. */
  lemma MissedPrice(strikes: seq<real>, i: nat) returns (px: real)
    requires Ascends(strikes) && i + 1 < |strikes| && !OnBoundary(strikes[i] + strikes[i + 1], StepOf(strikes))
    ensures
      var d := Distance(Snap(strikes, px), px);
      d > Distance(strikes[i], px) || d > Distance(strikes[i + 1], px)
  {
    hide Nearest, StepOf, Distance, Times, Round, OnBoundary;
    var step := StepOf(strikes);
    var x, k := StrictlyRounded(strikes[i] + strikes[i + 1], step);
    var nearest := Nearest(strikes, Times(k as real, step));
    NearestIsNearest(strikes, Times(k as real, step));
    var j :| 0 <= j < |strikes| && strikes[j] == nearest;
    var half := if j <= i then 0.5 else -0.5;
    var y := (x + k as real + half) / 2.0;
    px := Times(y, step);
    RoundWithin(y, k);
    QuotientOfTimes(y, step);
    assert Snap(strikes, px) == nearest;
    TimesMonotone(y, x, step);
    TimesMonotone(x, y, step);
    if j <= i {
      Closer(nearest, strikes[i + 1], px);
    } else {
      Closer(strikes[i], nearest, px);
    }
  }

  /**
   On ascending strikes, snapping finds a nearest strike for every price if and only if the midpoint
   of every pair of neighbours is an odd multiple of half the step.
   */
  lemma SnapNearestExactly(strikes: seq<real>)
    requires strikes != [] && Ascends(strikes)
    ensures AlwaysNearest(strikes) <==> MidpointsOnBoundaries(strikes)
  {
    hide Snap, Distance, StepOf, OnBoundary, Ascends;
    if MidpointsOnBoundaries(strikes) {
      forall px, i | 0 <= i < |strikes| ensures Distance(Snap(strikes, px), px) <= Distance(strikes[i], px) {
        BoundariesSuffice(strikes, px, i);
      }
    } else {
      var i :| 0 <= i < |strikes| - 1 && !OnBoundary(strikes[i] + strikes[i + 1], StepOf(strikes));
      var px := MissedPrice(strikes, i);
    }
  }

  /** Consecutive multiples of the step are ascending and have their midpoints on boundaries. */
  lemma RegularMidpoints(strikes: seq<real>, first: int, step: real)
    requires Regular(strikes, first, step) && step < 999999.0
    ensures Ascends(strikes) && MidpointsOnBoundaries(strikes)
  {
    hide Times, MinGap;
    RegularGap(strikes, first, step);
    forall i, j | 0 <= i < j < |strikes| ensures strikes[i] < strikes[j] {
      TimesMonotone((first + j) as real, (first + i) as real, step);
    }
    forall i | 0 <= i < |strikes| - 1 ensures OnBoundary(strikes[i] + strikes[i + 1], step) {
      TimesAdd((first + i) as real, (first + i + 1) as real, step);
      assert BoundaryAt(strikes[i] + strikes[i + 1], step, first + i);
    }
  }

  /** On consecutive multiples of the step, snapping finds a true nearest strike. */
  lemma SnapIsNearestOnRegularStrikes(strikes: seq<real>, first: int, step: real)
    requires Regular(strikes, first, step) && step < 999999.0 && strikes != []
    ensures AlwaysNearest(strikes)
  {
    hide AlwaysNearest, MidpointsOnBoundaries;
    RegularMidpoints(strikes, first, step);
    SnapNearestExactly(strikes);
  }

  /** On irregular strikes it need not: between 30 and 100, the price 66 is snapped down although 100 is nearer. */
  lemma SnapMissesNearest()
    ensures var strikes := [0.0, 30.0, 100.0];
      Snap(strikes, 66.0) == 30.0 && Distance(100.0, 66.0) < Distance(30.0, 66.0)
  {
    hide MinGap, Nearest, Round, Times;
    var strikes := [0.0, 30.0, 100.0];
    ThreeStrikes(0.0, 30.0, 100.0, 60.0);
    assert StepOf(strikes) == 30.0;
    RoundSample();
  }

  lemma RoundSample()
    ensures Times(Round(66.0 / 30.0) as real, 30.0) == 60.0
  {
    assert Round(66.0 / 30.0) == 2;
  }

  lemma ThreeStrikes(a: real, b: real, c: real, px: real)
    ensures MinGap([a, b, c]) == NarrowBy(NarrowBy(NO_GAP, Distance(b, a)), Distance(c, b))
    ensures
      var best := if Distance(b, px) < Distance(a, px) then b else a;
      Nearest([a, b, c], px) == if Distance(c, px) < Distance(best, px) then c else best
  {
    hide Distance, NarrowBy;
    var three, two := [a, b, c], [a, b];
    assert three[..2] == two && two[..1] == [a];
    assert MinGap([a]) == NO_GAP && Nearest([a], px) == a;
    assert MinGap(two) == NarrowBy(NO_GAP, Distance(b, a));
    assert Nearest(two, px) == if Distance(b, px) < Distance(a, px) then b else a;
  }
}
