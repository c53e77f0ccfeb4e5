/**
 * The time-axis grid of the performance panels (TimelineGrid.ts): the
 * planner `calculateGridOffsets`, which picks a round slice duration and
 * the gridlines that fall on it, and the `TimelineGrid` object, which keeps
 * its divider and label-bar elements in step with such a plan.
 *
 * Numbers are exact reals. `Math.ceil(Math.log(x) / Math.LN10)` is the least
 * integer k with 10^k >= x (CeilLog10), `Math.floor(Math.log(x) / Math.LN10)`
 * the greatest k with 10^k <= x (FloorLog10).
 */
module PerfUi {
  import opened Wrappers

  /** Minimal distance, in pixels, between two grid lines (TimelineGrid.ts, line 64). */
  const MinGridSlicePx: real := 64.0

  /**
   * The calculator a grid is drawn for. Its position mapping is affine and
   * starts at the left edge of the visible range:
   * computePosition(t) = (t - minimumBoundary) * pixelsPerTime.
   */
  datatype Calculator = Calculator(
    minimumBoundary: real,
    maximumBoundary: real,
    zeroTime: real,
    pixelsPerTime: real,
    formatValue: (real, int) -> string)
  {
    function BoundarySpan(): real { maximumBoundary - minimumBoundary }

    function ComputePosition(time: real): real { (time - minimumBoundary) * pixelsPerTime }
  }

  /** One gridline: its pixel offset (floored) and its time. */
  datatype Offset = Offset(position: int, time: real)

  /** The result of the planner: the gridlines in order and the shared label precision. */
  datatype DividersData = DividersData(offsets: seq<Offset>, precision: int)

  /** `Math.ceil`, written through `Floor`. */
  function Ceil(x: real): (k: int)
    ensures x <= k as real < x + 1.0
  {
    -((-x).Floor)
  }

  /** `freeZoneAtLeft || 0`: an absent free zone counts as zero. */
  function FreeZone(freeZoneAtLeft: Option<real>): real
  {
    match freeZoneAtLeft
    case None => 0.0
    case Some(z) => z
  }

  // ---------------------------------------------------------------------
  // Powers of ten and decimal logarithms
  // ---------------------------------------------------------------------

  /** 10^n for any integer n. */
  function Pow10(n: int): (r: real)
    ensures r > 0.0
    decreases if n < 0 then -n else n
  {
    if n == 0 then 1.0
    else if n > 0 then 10.0 * Pow10(n - 1)
    else Pow10(n + 1) / 10.0
  }

  lemma Pow10Step(n: int)
    ensures Pow10(n + 1) == 10.0 * Pow10(n)
  {
  }

  lemma {:induction false} Pow10Monotone(a: int, b: int)
    requires a <= b
    ensures Pow10(a) <= Pow10(b)
    decreases b - a
  {
    if a < b {
      Pow10Monotone(a + 1, b);
      Pow10Step(a);
    }
  }

  /** The least integer k with 10^k >= x: `Math.ceil(Math.log(x) / Math.LN10)`. */
  function CeilLog10(x: real): (k: int)
    requires x > 0.0
    ensures Pow10(k - 1) < x <= Pow10(k)
    decreases (if x > 1.0 then x.Floor else 0), (if x <= 0.1 then (1.0 / x).Floor else 0)
  {
    if x > 1.0 then
      var k := CeilLog10(x / 10.0) + 1;
      Pow10Step(k - 1);
      Pow10Step(k - 2);
      k
    else if x <= 0.1 then
      assert (1.0 / (x * 10.0)) == (1.0 / x) / 10.0;
      var k := CeilLog10(x * 10.0) - 1;
      Pow10Step(k);
      Pow10Step(k - 1);
      k
    else
      0
  }

  /** The greatest integer k with 10^k <= x: `Math.floor(Math.log(x) / Math.LN10)`. */
  function FloorLog10(x: real): (k: int)
    requires x > 0.0
    ensures Pow10(k) <= x < Pow10(k + 1)
    decreases (if x >= 10.0 then x.Floor else 0), (if x < 1.0 then (1.0 / x).Floor else 0)
  {
    if x >= 10.0 then
      var k := FloorLog10(x / 10.0) + 1;
      Pow10Step(k - 1);
      Pow10Step(k);
      k
    else if x < 1.0 then
      assert (1.0 / (x * 10.0)) == (1.0 / x) / 10.0;
      var k := FloorLog10(x * 10.0) - 1;
      Pow10Step(k);
      Pow10Step(k + 1);
      k
    else
      0
  }

  /** Any two k with 10^k <= x < 10^(k+1) are equal. */
  lemma FloorLog10Unique(x: real, k: int)
    requires x > 0.0
    requires Pow10(k) <= x < Pow10(k + 1)
    ensures FloorLog10(x) == k
  {
    var f := FloorLog10(x);
    if f < k {
      Pow10Monotone(f + 1, k);
    } else if k < f {
      Pow10Monotone(k + 1, f);
    }
  }

  // ---------------------------------------------------------------------
  // The slice duration (TimelineGrid.ts, lines 66-83)
  // ---------------------------------------------------------------------

  /**
   * The naive slice: the time that 64 pixels cover. The source computes it as
   * `boundarySpan / (clientWidth / minGridSlicePx)` (SourceScale).
   */
  function NaiveSliceTime(c: Calculator): (t: real)
    requires c.pixelsPerTime > 0.0
    ensures t > 0.0 && t * c.pixelsPerTime == MinGridSlicePx
  {
    MinGridSlicePx / c.pixelsPerTime
  }

  /**
   * For a non-empty span, the scale `clientWidth / boundarySpan` and the naive
   * slice the source computes from `clientWidth = computePosition(maximumBoundary)`
   * are the calculator's scale and NaiveSliceTime (lines 66-69).
   */
  lemma SourceScale(c: Calculator)
    requires c.pixelsPerTime > 0.0 && c.BoundarySpan() != 0.0
    ensures c.ComputePosition(c.maximumBoundary) / c.BoundarySpan() == c.pixelsPerTime
    ensures c.ComputePosition(c.maximumBoundary) / MinGridSlicePx != 0.0
    ensures c.BoundarySpan() / (c.ComputePosition(c.maximumBoundary) / MinGridSlicePx) == NaiveSliceTime(c)
  {
    var clientWidth := c.ComputePosition(c.maximumBoundary);
    assert clientWidth == c.BoundarySpan() * c.pixelsPerTime;
  }

  /**
   * The slice the planner settles on: the ladder step above the naive slice.
   * The source reaches it from the least power of ten not below the naive
   * slice by the two refinements of lines 78-83 (RefinedIsLadderStep).
   */
  function GridSliceTime(c: Calculator): (g: real)
    requires c.pixelsPerTime > 0.0
    ensures g > 0.0
  {
    SliceAbove(NaiveSliceTime(c))
  }

  /** The ladder step above x, counted from the least power of ten not below x. */
  function SliceAbove(x: real): real
    requires x > 0.0
  {
    LadderStep(x, Pow10(CeilLog10(x) - 1))
  }

  /** Lines 78-83: divide the slice by 5, then by 2, each time the result is still wide enough. */
  function Refined(gridSliceTime: real, pixelsPerTime: real): real
  {
    var g1 := if gridSliceTime * pixelsPerTime >= 5.0 * MinGridSlicePx then gridSliceTime / 5.0 else gridSliceTime;
    if g1 * pixelsPerTime >= 2.0 * MinGridSlicePx then g1 / 2.0 else g1
  }

  /** v is m * 10^n with m one of 1, 2, 5: one of the slice durations the planner allows. */
  ghost predicate RoundAt(v: real, n: int)
  {
    v == Pow10(n) || v == 2.0 * Pow10(n) || v == 5.0 * Pow10(n)
  }

  ghost predicate IsRound(v: real)
  {
    exists n: int :: RoundAt(v, n)
  }

  /** With p > 0, v * p >= a * 64 exactly when v >= a * x, where x * p == 64. */
  lemma ScaleCompare(v: real, x: real, p: real, a: real)
    requires p > 0.0 && x * p == MinGridSlicePx
    ensures v * p >= a * MinGridSlicePx <==> v >= a * x
  {
    assert v * p - a * MinGridSlicePx == (v - a * x) * p;
  }

  /** The ladder step above x: 2q, 5q or 10q, where q < x <= 10q. */
  function LadderStep(x: real, q: real): real
  {
    if x <= 2.0 * q then 2.0 * q else if x <= 5.0 * q then 5.0 * q else 10.0 * q
  }

  /** The two refinements turn 10q, with q < x <= 10q, into the ladder step above x. */
  lemma RefinedIsLadderStep(x: real, q: real, p: real)
    requires p > 0.0 && x * p == MinGridSlicePx && 0.0 < q < x <= 10.0 * q
    ensures Refined(10.0 * q, p) == LadderStep(x, q)
  {
    ScaleCompare(10.0 * q, x, p, 5.0);
    var g1 := if 10.0 * q * p >= 5.0 * MinGridSlicePx then 10.0 * q / 5.0 else 10.0 * q;
    ScaleCompare(g1, x, p, 2.0);
  }

  /** The ladder step above x is the least round value not below x. */
  lemma {:induction false} LadderStepIsLeastRound(x: real, k: int)
    requires Pow10(k - 1) < x <= Pow10(k)
    ensures var g := LadderStep(x, Pow10(k - 1));
            (RoundAt(g, k - 1) || RoundAt(g, k)) && x <= g < 2.5 * x
    ensures forall v: real, n: int :: RoundAt(v, n) && v >= x ==> LadderStep(x, Pow10(k - 1)) <= v
  {
    var q := Pow10(k - 1);
    Pow10Step(k - 1);
    var g := LadderStep(x, q);
    forall v: real, n: int | RoundAt(v, n) && v >= x
      ensures g <= v
    {
      if n <= k - 2 {
        Pow10Monotone(n, k - 2);
        Pow10Step(k - 2);
      } else if n >= k {
        Pow10Monotone(k, n);
      }
    }
  }

  /**
   * g is a round value at least 64 pixels wide at scale p (and less than 160),
   * and no round value narrower than g is 64 pixels wide.
   */
  ghost predicate LeastRoundSlice(g: real, p: real)
  {
    && IsRound(g)
    && MinGridSlicePx <= g * p < 2.5 * MinGridSlicePx
    && forall v: real, n: int :: RoundAt(v, n) && v * p >= MinGridSlicePx ==> g <= v
  }

  /** The planner's slice is the least round value that is at least 64 pixels wide. */
  lemma GridSliceTimeIsLeastRound(c: Calculator)
    requires c.pixelsPerTime > 0.0
    ensures LeastRoundSlice(GridSliceTime(c), c.pixelsPerTime)
  {
    LadderStepOnScreen(NaiveSliceTime(c), c.pixelsPerTime);
  }

  /** The source's computation: the least power of ten not below the naive slice, refined. */
  lemma SourceSliceIsGridSliceTime(c: Calculator)
    requires c.pixelsPerTime > 0.0
    ensures Refined(Pow10(CeilLog10(NaiveSliceTime(c))), c.pixelsPerTime) == GridSliceTime(c)
  {
    RefinedPowerIsSliceAbove(NaiveSliceTime(c), c.pixelsPerTime);
  }

  /** Refining the least power of ten not below x = 64 / p gives the ladder step above x. */
  lemma RefinedPowerIsSliceAbove(x: real, p: real)
    requires p > 0.0 && x > 0.0 && x * p == MinGridSlicePx
    ensures Refined(Pow10(CeilLog10(x)), p) == SliceAbove(x)
  {
    var k := CeilLog10(x);
    var q := Pow10(k - 1);
    Pow10Step(k - 1);
    assert Pow10(k) == 10.0 * q;
    RefinedIsLadderStep(x, q, p);
  }

  /** The ladder step above x = 64 / p, read in pixels. */
  lemma LadderStepOnScreen(x: real, p: real)
    requires p > 0.0 && x > 0.0 && x * p == MinGridSlicePx
    ensures LeastRoundSlice(SliceAbove(x), p)
  {
    var g := SliceAbove(x);
    var k := CeilLog10(x);
    LadderStepIsLeastRound(x, k);
    LeastRoundOnScreen(g, x, p, k);
  }

  /** The least round value not below x = 64 / p, read in pixels. */
  lemma LeastRoundOnScreen(g: real, x: real, p: real, k: int)
    requires p > 0.0 && x * p == MinGridSlicePx
    requires (RoundAt(g, k - 1) || RoundAt(g, k)) && x <= g < 2.5 * x
    requires forall v: real, n: int :: RoundAt(v, n) && v >= x ==> g <= v
    ensures LeastRoundSlice(g, p)
  {
    ScaleCompare(g, x, p, 1.0);
    ScaleCompare(g, x, p, 2.5);
    forall v: real, n: int | RoundAt(v, n) && v * p >= MinGridSlicePx
      ensures g <= v
    {
      ScaleCompare(v, x, p, 1.0);
    }
  }

  /** Label precision `max(0, -floor(log10(gridSliceTime * 1.01)))` (line 107). */
  function Precision(gridSliceTime: real): (digits: int)
    requires gridSliceTime > 0.0
    ensures digits >= 0
  {
    var e := FloorLog10(gridSliceTime * 1.01);
    if -e > 0 then -e else 0
  }

  /** For a round slice m * 10^n the precision is max(0, -n): the factor 1.01 never moves it. */
  lemma PrecisionOfRound(g: real, n: int)
    requires RoundAt(g, n)
    ensures Precision(g) == if n < 0 then -n else 0
  {
    Pow10Step(n);
    FloorLog10Unique(g * 1.01, n);
  }

  // ---------------------------------------------------------------------
  // The gridlines (TimelineGrid.ts, lines 85-107)
  // ---------------------------------------------------------------------

  /** Index j of the first gridline: `Math.ceil((minimumBoundary - zeroTime) / gridSliceTime)`. */
  function FirstDividerIndex(c: Calculator, gridSliceTime: real): int
    requires gridSliceTime > 0.0
  {
    Ceil((c.minimumBoundary - c.zeroTime) / gridSliceTime)
  }

  /** `firstDividerTime = j * gridSliceTime + zeroTime` (lines 85-87): gridline j. */
  function FirstDividerTime(c: Calculator, gridSliceTime: real): real
    requires gridSliceTime > 0.0
  {
    AlignedTime(c.zeroTime, gridSliceTime, FirstDividerIndex(c, gridSliceTime))
  }

  /** `lastDividerTime`: the right boundary plus 64 pixels' worth of time (lines 88-91). */
  function LastDividerTime(c: Calculator): real
    requires c.pixelsPerTime > 0.0
  {
    c.maximumBoundary + MinGridSlicePx / c.pixelsPerTime
  }

  /** `dividersCount = Math.ceil((lastDividerTime - firstDividerTime) / gridSliceTime)` (line 92). */
  function DividersCount(c: Calculator, gridSliceTime: real): int
    requires c.pixelsPerTime > 0.0 && gridSliceTime > 0.0
  {
    Ceil((LastDividerTime(c) - FirstDividerTime(c, gridSliceTime)) / gridSliceTime)
  }

  /** Candidate i of the loop: `firstDividerTime + gridSliceTime * i` (line 100). */
  function CandidateTime(first: real, g: real, i: int): real
  {
    first + g * i as real
  }

  /**
   * The offsets the loop of lines 98-105 has pushed after its first n
   * rounds: candidates left of the free zone are skipped, the others are
   * kept with their floored position.
   */
  function Kept(c: Calculator, first: real, g: real, freeZone: real, n: nat): seq<Offset>
  {
    if n == 0 then []
    else
      var time := CandidateTime(first, g, n - 1);
      Kept(c, first, g, freeZone, n - 1)
        + (if c.ComputePosition(time) < freeZone then [] else [Offset(c.ComputePosition(time).Floor, time)])
  }

  /** The offsets lines 85-105 collect for a given slice: the loop run for max(0, dividersCount) rounds. */
  function PlanOffsets(c: Calculator, gridSliceTime: real, freeZone: real): seq<Offset>
    requires c.pixelsPerTime > 0.0 && gridSliceTime > 0.0
  {
    var n := DividersCount(c, gridSliceTime);
    Kept(c, FirstDividerTime(c, gridSliceTime), gridSliceTime, freeZone, if n < 0 then 0 else n)
  }

  /**
   * The plan `calculateGridOffsets(calculator, freeZoneAtLeft)` returns. For
   * an empty span the source's slice is NaN and the guard of lines 94-96 leaves
   * no dividers; the model's precision there is 0.
   */
  function GridPlan(c: Calculator, freeZoneAtLeft: Option<real>): DividersData
    requires c.pixelsPerTime > 0.0
  {
    if c.BoundarySpan() == 0.0 then DividersData([], 0)
    else DividersData(PlanOffsets(c, GridSliceTime(c), FreeZone(freeZoneAtLeft)), Precision(GridSliceTime(c)))
  }

  /** zero + k * g: gridline k of a grid of step g phase-aligned to zero. */
  function AlignedTime(zero: real, g: real, k: int): real
  {
    zero + k as real * g
  }

  /** The time of gridline k of the planner's grid, phase-aligned to zeroTime. */
  function GridTime(c: Calculator, k: int): real
    requires c.pixelsPerTime > 0.0
  {
    AlignedTime(c.zeroTime, GridSliceTime(c), k)
  }

  // Lemmas about Kept, over plain numbers.

  /** Every kept offset is a candidate i < n, right of the free zone, with its floored position. */
  lemma {:induction false} KeptSound(c: Calculator, first: real, g: real, freeZone: real, n: nat)
    ensures forall o :: o in Kept(c, first, g, freeZone, n) ==>
              exists i :: 0 <= i < n && o.time == CandidateTime(first, g, i)
                && freeZone <= c.ComputePosition(o.time) && o.position == c.ComputePosition(o.time).Floor
  {
    if n > 0 {
      KeptSound(c, first, g, freeZone, n - 1);
    }
  }

  /** Every candidate i < n right of the free zone is kept. */
  lemma {:induction false} KeptComplete(c: Calculator, first: real, g: real, freeZone: real, n: nat, i: int)
    requires 0 <= i < n
    requires freeZone <= c.ComputePosition(CandidateTime(first, g, i))
    ensures var t := CandidateTime(first, g, i);
            Offset(c.ComputePosition(t).Floor, t) in Kept(c, first, g, freeZone, n)
  {
    if i < n - 1 {
      KeptComplete(c, first, g, freeZone, n - 1, i);
    }
  }

  /** CandidateTime(i) + g is CandidateTime(i + 1), and candidates grow with i. */
  lemma CandidateStep(first: real, g: real, i: int, j: int)
    requires g > 0.0 && i < j
    ensures CandidateTime(first, g, i) + g <= CandidateTime(first, g, j)
  {
    assert CandidateTime(first, g, j) - CandidateTime(first, g, i) == g * (j - i) as real;
  }

  /** Kept offsets lie at least one slice below candidate n. */
  lemma {:induction false} KeptBelow(c: Calculator, first: real, g: real, freeZone: real, n: nat)
    requires g > 0.0
    ensures forall o :: o in Kept(c, first, g, freeZone, n) ==> o.time + g <= CandidateTime(first, g, n)
  {
    if n > 0 {
      KeptBelow(c, first, g, freeZone, n - 1);
      CandidateStep(first, g, n - 1, n);
    }
  }

  /** The offsets of s are in increasing time, each at least g after the one before. */
  ghost predicate SpacedBy(s: seq<Offset>, g: real)
  {
    forall p, q :: 0 <= p < q < |s| ==> s[p].time + g <= s[q].time
  }

  /** Kept offsets are at least one slice apart, in increasing time. */
  lemma {:induction false} KeptSorted(c: Calculator, first: real, g: real, freeZone: real, n: nat)
    requires g > 0.0
    ensures SpacedBy(Kept(c, first, g, freeZone, n), g)
  {
    if n > 0 {
      KeptSorted(c, first, g, freeZone, n - 1);
      KeptBelow(c, first, g, freeZone, n - 1);
      var s := Kept(c, first, g, freeZone, n);
      var s' := Kept(c, first, g, freeZone, n - 1);
      forall p, q | 0 <= p < q < |s|
        ensures s[p].time + g <= s[q].time
      {
        if q < |s'| {
          assert s[p] == s'[p] && s[q] == s'[q];
          assert s'[p].time + g <= s'[q].time;
        } else {
          assert s[p] == s'[p] && s'[p] in s';
          assert s'[p].time + g <= CandidateTime(first, g, n - 1);
          assert s[q].time == CandidateTime(first, g, n - 1);
        }
      }
    }
  }

  /** Multiplying by a positive factor keeps the sign. */
  lemma PositiveFactor(a: real, g: real)
    requires g > 0.0
    ensures a * g >= 0.0 <==> a >= 0.0
    ensures a * g < 0.0 <==> a < 0.0
  {
    if a < 0.0 {
      assert (-a) * g > 0.0;
    }
  }

  /** With r * g == minB - zero, gridline k is not left of minB exactly when k >= r. */
  lemma AlignedAbove(minB: real, zero: real, g: real, r: real, k: int)
    requires g > 0.0 && r * g == minB - zero
    ensures AlignedTime(zero, g, k) >= minB <==> k as real >= r
  {
    assert AlignedTime(zero, g, k) - minB == (k as real - r) * g;
    PositiveFactor(k as real - r, g);
  }

  /** j = ceil((minB - zero) / g) is the least integer with zero + j * g >= minB. */
  lemma LeastAlignedIndex(minB: real, zero: real, g: real, j: int)
    requires g > 0.0 && j == Ceil((minB - zero) / g)
    ensures AlignedTime(zero, g, j) >= minB
    ensures forall k: int :: AlignedTime(zero, g, k) >= minB ==> j <= k
  {
    var r := (minB - zero) / g;
    assert r * g == minB - zero;
    AlignedAbove(minB, zero, g, r, j);
    forall k: int | AlignedTime(zero, g, k) >= minB
      ensures j <= k
    {
      AlignedAbove(minB, zero, g, r, k);
    }
  }

  /** Candidate i of a loop started at gridline j is gridline j + i. */
  lemma CandidateAligned(zero: real, g: real, j: int, i: int)
    ensures CandidateTime(AlignedTime(zero, g, j), g, i) == AlignedTime(zero, g, j + i)
  {
  }

  /** Candidate i >= 0 is below last exactly when i is below ceil((last - first) / g). */
  lemma CandidateWithinCount(first: real, g: real, last: real, i: int)
    requires g > 0.0 && 0 <= i
    ensures i < Ceil((last - first) / g) <==> CandidateTime(first, g, i) < last
  {
    var r := (last - first) / g;
    assert r * g == last - first;
    assert CandidateTime(first, g, i) - last == (i as real - r) * g;
    PositiveFactor(i as real - r, g);
  }

  /** Positions at least 64 pixels apart floor to integers at least 64 apart. */
  lemma FloorGap(x1: real, x2: real)
    requires x1 + MinGridSlicePx <= x2
    ensures x1.Floor as real + MinGridSlicePx <= x2.Floor as real
  {
    var f1, f2 := x1.Floor, x2.Floor;
    assert f1 as real <= x1 && x2 < f2 as real + 1.0;
    assert f1 + 64 < f2 + 1;
  }

  /** A time gap of at least g, for a g at least 64 pixels wide, is a screen gap of at least 64 pixels. */
  lemma ScreenGap(t1: real, t2: real, g: real, minB: real, p: real)
    requires p > 0.0 && g * p >= MinGridSlicePx && t1 + g <= t2
    ensures (t1 - minB) * p + MinGridSlicePx <= (t2 - minB) * p
  {
    assert (t2 - minB) * p - (t1 - minB) * p - g * p == (t2 - t1 - g) * p;
    PositiveFactor(t2 - t1 - g, p);
  }

  /** A time gap of at least g, with g at least 64 pixels wide, floors to a pixel gap of at least 64. */
  lemma PixelGap(c: Calculator, g: real, t1: real, t2: real)
    requires c.pixelsPerTime > 0.0 && g * c.pixelsPerTime >= MinGridSlicePx && t1 + g <= t2
    ensures c.ComputePosition(t1).Floor as real + MinGridSlicePx <= c.ComputePosition(t2).Floor as real
  {
    ScreenGap(t1, t2, g, c.minimumBoundary, c.pixelsPerTime);
    FloorGap(c.ComputePosition(t1), c.ComputePosition(t2));
  }

  // ---------------------------------------------------------------------
  // What the plan holds
  // ---------------------------------------------------------------------

  /** Time t lies in [minimumBoundary, last) and right of the free zone. */
  ghost predicate InWindow(c: Calculator, freeZone: real, last: real, t: real)
  {
    c.minimumBoundary <= t < last && freeZone <= c.ComputePosition(t)
  }

  /** The offset recorded for a gridline at time t. */
  function OffsetAt(c: Calculator, t: real): Offset
  {
    Offset(c.ComputePosition(t).Floor, t)
  }

  /** Gridline k of the planner's grid belongs in the plan. */
  ghost predicate Admitted(c: Calculator, freeZone: real, k: int)
    requires c.pixelsPerTime > 0.0
  {
    InWindow(c, freeZone, LastDividerTime(c), GridTime(c, k))
  }

  /** The offset of gridline k of the planner's grid. */
  function GridOffset(c: Calculator, k: int): Offset
    requires c.pixelsPerTime > 0.0
  {
    OffsetAt(c, GridTime(c, k))
  }

  /**
   * Over plain numbers: the loop started at the least aligned gridline at or
   * after minimumBoundary and run ceil((last - first) / g) rounds keeps exactly
   * the aligned gridlines in the window.
   */
  lemma KeptIsWindow(c: Calculator, zero: real, g: real, j: int, last: real, freeZone: real, m: nat)
    requires g > 0.0 && j == Ceil((c.minimumBoundary - zero) / g)
    requires var n := Ceil((last - AlignedTime(zero, g, j)) / g); m == if n < 0 then 0 else n
    ensures forall o :: o in Kept(c, AlignedTime(zero, g, j), g, freeZone, m) <==>
              exists k :: InWindow(c, freeZone, last, AlignedTime(zero, g, k)) && o == OffsetAt(c, AlignedTime(zero, g, k))
  {
    var first := AlignedTime(zero, g, j);
    var s := Kept(c, first, g, freeZone, m);
    LeastAlignedIndex(c.minimumBoundary, zero, g, j);
    KeptSound(c, first, g, freeZone, m);
    forall o | o in s
      ensures exists k :: InWindow(c, freeZone, last, AlignedTime(zero, g, k)) && o == OffsetAt(c, AlignedTime(zero, g, k))
    {
      var i :| 0 <= i < m && o.time == CandidateTime(first, g, i)
               && freeZone <= c.ComputePosition(o.time) && o.position == c.ComputePosition(o.time).Floor;
      CandidateAligned(zero, g, j, i);
      CandidateWithinCount(first, g, last, i);
      assert CandidateTime(first, g, i) - first == i as real * g;
      PositiveFactor(i as real, g);
      assert InWindow(c, freeZone, last, AlignedTime(zero, g, j + i)) && o == OffsetAt(c, AlignedTime(zero, g, j + i));
    }
    forall o, k | InWindow(c, freeZone, last, AlignedTime(zero, g, k)) && o == OffsetAt(c, AlignedTime(zero, g, k))
      ensures o in s
    {
      var i := k - j;
      CandidateAligned(zero, g, j, i);
      CandidateWithinCount(first, g, last, i);
      KeptComplete(c, first, g, freeZone, m, i);
    }
  }

  /**
   * Soundness and completeness of the plan: for a non-empty span its offsets
   * are exactly the gridlines of the planner's grid that lie in
   * [minimumBoundary, lastDividerTime) and right of the free zone.
   */
  lemma GridPlanGridlines(c: Calculator, freeZoneAtLeft: Option<real>)
    requires c.pixelsPerTime > 0.0 && c.BoundarySpan() != 0.0
    ensures forall o :: o in GridPlan(c, freeZoneAtLeft).offsets <==>
              exists k :: Admitted(c, FreeZone(freeZoneAtLeft), k) && o == GridOffset(c, k)
  {
    var g, last, fz := GridSliceTime(c), LastDividerTime(c), FreeZone(freeZoneAtLeft);
    var j := FirstDividerIndex(c, g);
    var n := DividersCount(c, g);
    var m: nat := if n < 0 then 0 else n;
    var s := Kept(c, AlignedTime(c.zeroTime, g, j), g, fz, m);
    assert GridPlan(c, freeZoneAtLeft).offsets == s;
    KeptIsWindow(c, c.zeroTime, g, j, last, fz, m);
    forall o | o in s
      ensures exists k :: Admitted(c, fz, k) && o == GridOffset(c, k)
    {
      var k :| InWindow(c, fz, last, AlignedTime(c.zeroTime, g, k)) && o == OffsetAt(c, AlignedTime(c.zeroTime, g, k));
      assert GridTime(c, k) == AlignedTime(c.zeroTime, g, k);
      assert Admitted(c, fz, k) && o == GridOffset(c, k);
    }
    forall o, k | Admitted(c, fz, k) && o == GridOffset(c, k)
      ensures o in s
    {
      assert GridTime(c, k) == AlignedTime(c.zeroTime, g, k);
    }
  }

  /** Offsets in increasing time, each at least 64 pixels right of the one before. */
  ghost predicate SpreadOnScreen(s: seq<Offset>)
  {
    forall p, q :: 0 <= p < q < |s| ==>
      s[p].time < s[q].time && s[p].position as real + MinGridSlicePx <= s[q].position as real
  }

  /** Over plain numbers: kept offsets one slice of at least 64 pixels apart are 64 pixels apart on screen. */
  lemma KeptOnScreen(c: Calculator, first: real, g: real, freeZone: real, m: nat)
    requires c.pixelsPerTime > 0.0 && g > 0.0 && g * c.pixelsPerTime >= MinGridSlicePx
    ensures SpreadOnScreen(Kept(c, first, g, freeZone, m))
  {
    var s := Kept(c, first, g, freeZone, m);
    KeptSorted(c, first, g, freeZone, m);
    KeptSound(c, first, g, freeZone, m);
    forall p, q | 0 <= p < q < |s|
      ensures s[p].time < s[q].time && s[p].position as real + MinGridSlicePx <= s[q].position as real
    {
      assert s[p] in s && s[q] in s;
      PixelGap(c, g, s[p].time, s[q].time);
    }
  }

  /** Over plain numbers: the offsets planned for a least round slice are spread on screen. */
  lemma PlanOffsetsOnScreen(c: Calculator, g: real, freeZone: real)
    requires c.pixelsPerTime > 0.0 && g > 0.0 && LeastRoundSlice(g, c.pixelsPerTime)
    ensures SpreadOnScreen(PlanOffsets(c, g, freeZone))
  {
    var n := DividersCount(c, g);
    KeptOnScreen(c, FirstDividerTime(c, g), g, freeZone, if n < 0 then 0 else n);
  }

  /** Plan offsets come in increasing time, each at least 64 pixels right of the one before. */
  lemma GridPlanSpacing(c: Calculator, freeZoneAtLeft: Option<real>)
    requires c.pixelsPerTime > 0.0
    ensures SpreadOnScreen(GridPlan(c, freeZoneAtLeft).offsets)
  {
    if c.BoundarySpan() != 0.0 {
      GridSliceTimeIsLeastRound(c);
      PlanOffsetsOnScreen(c, GridSliceTime(c), FreeZone(freeZoneAtLeft));
    }
  }

  /** For a non-empty span the label precision is max(0, -n) for the slice m * 10^n. */
  lemma GridPlanPrecision(c: Calculator, freeZoneAtLeft: Option<real>)
    requires c.pixelsPerTime > 0.0 && c.BoundarySpan() != 0.0
    ensures exists n :: RoundAt(GridSliceTime(c), n) &&
              GridPlan(c, freeZoneAtLeft).precision == (if n < 0 then -n else 0)
  {
    var g := GridSliceTime(c);
    GridSliceTimeIsLeastRound(c);
    var n :| RoundAt(g, n);
    PrecisionOfRound(g, n);
  }

  // ---------------------------------------------------------------------
  // The planner, step by step (TimelineGrid.ts, lines 63-108)
  // ---------------------------------------------------------------------

  /**
   * `TimelineGrid.calculateGridOffsets`: the source's computation in its own
   * order, proved to produce the plan GridPlan.
   */
  method CalculateGridOffsets(c: Calculator, freeZoneAtLeft: Option<real>) returns (data: DividersData)
    requires c.pixelsPerTime > 0.0
    ensures data == GridPlan(c, freeZoneAtLeft)
  {
    if c.BoundarySpan() == 0.0 {
      // The slice is 0 / 0 here and `!gridSliceTime` clears the count.
      return DividersData([], 0);
    }
    var clientWidth := c.ComputePosition(c.maximumBoundary);
    SourceScale(c);
    var dividersCount := clientWidth / MinGridSlicePx;
    var gridSliceTime := c.BoundarySpan() / dividersCount;
    var pixelsPerTime := clientWidth / c.BoundarySpan();
    var logGridSliceTime := CeilLog10(gridSliceTime);
    gridSliceTime := Pow10(logGridSliceTime);
    gridSliceTime := RefineSlice(gridSliceTime, pixelsPerTime);
    SourceSliceIsGridSliceTime(c);
    var offsets := PlaceDividers(c, gridSliceTime, FreeZone(freeZoneAtLeft));
    var e := FloorLog10(gridSliceTime * 1.01);
    data := DividersData(offsets, if -e > 0 then -e else 0);
  }

  /** Lines 78-83: refine the power-of-ten slice by 5 and then by 2 while it stays wide enough. */
  method RefineSlice(powerOfTen: real, pixelsPerTime: real) returns (gridSliceTime: real)
    ensures gridSliceTime == Refined(powerOfTen, pixelsPerTime)
  {
    gridSliceTime := powerOfTen;
    if gridSliceTime * pixelsPerTime >= 5.0 * MinGridSlicePx {
      gridSliceTime := gridSliceTime / 5.0;
    }
    if gridSliceTime * pixelsPerTime >= 2.0 * MinGridSlicePx {
      gridSliceTime := gridSliceTime / 2.0;
    }
  }

  /** Lines 85-105: walk the gridlines from the first aligned one, skipping those left of the free zone. */
  method PlaceDividers(c: Calculator, gridSliceTime: real, freeZone: real) returns (offsets: seq<Offset>)
    requires c.pixelsPerTime > 0.0 && gridSliceTime > 0.0
    ensures offsets == PlanOffsets(c, gridSliceTime, freeZone)
  {
    var firstDividerTime := Ceil((c.minimumBoundary - c.zeroTime) / gridSliceTime) as real * gridSliceTime + c.zeroTime;
    var lastDividerTime := c.maximumBoundary;
    lastDividerTime := lastDividerTime + MinGridSlicePx / c.pixelsPerTime;
    var count := Ceil((lastDividerTime - firstDividerTime) / gridSliceTime);
    assert firstDividerTime == FirstDividerTime(c, gridSliceTime) && count == DividersCount(c, gridSliceTime);
    offsets := CollectOffsets(c, firstDividerTime, gridSliceTime, freeZone, count);
  }

  /** One more round of the loop: candidate n is skipped left of the free zone and kept otherwise. */
  lemma KeptStep(c: Calculator, first: real, g: real, freeZone: real, n: nat)
    ensures var time := first + g * n as real;
            Kept(c, first, g, freeZone, n + 1) == Kept(c, first, g, freeZone, n)
              + (if c.ComputePosition(time) < freeZone then [] else [Offset(c.ComputePosition(time).Floor, time)])
  {
  }

  /** Lines 97-105: the loop over count candidates, skipping those left of the free zone. */
  method CollectOffsets(c: Calculator, firstDividerTime: real, gridSliceTime: real, freeZone: real, count: int)
    returns (offsets: seq<Offset>)
    ensures offsets == Kept(c, firstDividerTime, gridSliceTime, freeZone, if count < 0 then 0 else count)
  {
    offsets := [];
    var i: nat := 0;
    while i < count
      invariant i <= (if count < 0 then 0 else count)
      invariant offsets == Kept(c, firstDividerTime, gridSliceTime, freeZone, i)
    {
      var time := firstDividerTime + gridSliceTime * i as real;
      KeptStep(c, firstDividerTime, gridSliceTime, freeZone, i);
      if c.ComputePosition(time) < freeZone {
        i := i + 1;
        continue;
      }
      offsets := offsets + [Offset(c.ComputePosition(time).Floor, time)];
      i := i + 1;
    }
  }

  // ---------------------------------------------------------------------
  // The grid object (TimelineGrid.ts, lines 164-235)
  // ---------------------------------------------------------------------

  /** An element's `style.left`: never set, a percentage, or the non-finite text a zero width gives. */
  datatype Left = Unset | Percent(value: real) | NotFinite

  /**
   * `100 * position / dividersElementClientWidth`, written out as a style: the
   * percentage of the dividers element's width at which the position lies.
   */
  function PercentLeft(position: int, clientWidth: nat): (left: Left)
    ensures clientWidth == 0 <==> left == NotFinite
    ensures clientWidth > 0 ==> left.Percent? && left.value * clientWidth as real == 100.0 * position as real
  {
    if clientWidth == 0 then NotFinite else Percent(100.0 * position as real / clientWidth as real)
  }

  /** A `resources-divider` element of the dividers element. */
  class Divider {
    var left: Left

    constructor()
      ensures left == Unset
    {
      left := Unset;
    }
  }

  /** A `resources-divider` element of the label bar, with the `textContent` of its `resources-divider-label` child. */
  class LabelBar {
    var left: Left
    var text: string

    constructor()
      ensures left == Unset && text == ""
    {
      left := Unset;
      text := "";
    }
  }

  /** The grid's two element lists, the children of the dividers element and of the label bar. */
  class TimelineGrid {
    var dividers: seq<Divider>
    var labelBars: seq<LabelBar>

    /** One label bar per divider, and no element twice in a list. */
    ghost predicate Valid()
      reads this
    {
      |dividers| == |labelBars| && NoRepeats(dividers) && NoRepeats(labelBars)
    }

    /** Divider and label bar i sit at plan offset i, and the bar is labelled with its time. */
    ghost predicate Shows(c: Calculator, data: DividersData, clientWidth: nat)
      reads this, dividers, labelBars
    {
      && |dividers| == |labelBars| == |data.offsets|
      && forall i :: 0 <= i < |dividers| ==>
           && dividers[i].left == PercentLeft(data.offsets[i].position, clientWidth)
           && labelBars[i].left == PercentLeft(data.offsets[i].position, clientWidth)
           && labelBars[i].text == c.formatValue(data.offsets[i].time, data.precision)
    }

    constructor()
      ensures Valid() && dividers == [] && labelBars == []
    {
      dividers := [];
      labelBars := [];
    }

    /** `removeDividers` (lines 164-167): both element lists are emptied. */
    method RemoveDividers()
      modifies this
      ensures Valid() && dividers == [] && labelBars == []
    {
      dividers := [];
      labelBars := [];
    }

    /**
     * `updateDividers` (lines 169-235): plan the grid, reuse the existing
     * elements from the front, create the missing ones at the end, and
     * remove the rest. Afterwards the elements show exactly the plan.
     */
    method UpdateDividers(c: Calculator, freeZoneAtLeft: Option<real>, dividersElementClientWidth: nat)
      returns (updated: bool)
      requires c.pixelsPerTime > 0.0 && Valid()
      modifies this, dividers, labelBars
      ensures Valid() && updated
      ensures Shows(c, GridPlan(c, freeZoneAtLeft), dividersElementClientWidth)
      ensures forall i :: 0 <= i < |dividers| && i < |old(dividers)| ==>
                dividers[i] == old(dividers)[i] && labelBars[i] == old(labelBars)[i]
      ensures forall i :: |old(dividers)| <= i < |dividers| ==> fresh(dividers[i]) && fresh(labelBars[i])
      ensures forall i :: |dividers| <= i < |old(dividers)| ==>
                unchanged(old(dividers)[i]) && unchanged(old(labelBars)[i])
    {
      var dividersData := CalculateGridOffsets(c, freeZoneAtLeft);
      ReuseOrCreate(c, dividersData, dividersElementClientWidth);
      // Remove extras: the dividers from the cursor on, then the label bars.
      RemoveDividersFrom(|dividersData.offsets|);
      RemoveLabelBarsFrom(|dividersData.offsets|);
      return true;
    }

    /**
     * Lines 176-213: walk both lists with one cursor, creating a divider and a
     * label bar whenever the cursor runs past the end, and set their position
     * and label text from the plan.
     */
    method ReuseOrCreate(c: Calculator, data: DividersData, clientWidth: nat)
      requires Valid()
      modifies this, dividers, labelBars
      ensures Valid()
      ensures |dividers| == (if |data.offsets| < |old(dividers)| then |old(dividers)| else |data.offsets|)
      ensures forall k :: 0 <= k < |old(dividers)| ==> dividers[k] == old(dividers)[k] && labelBars[k] == old(labelBars)[k]
      ensures forall k :: |old(dividers)| <= k < |dividers| ==> fresh(dividers[k]) && fresh(labelBars[k])
      ensures forall k :: |data.offsets| <= k < |old(dividers)| ==> unchanged(old(dividers)[k]) && unchanged(old(labelBars)[k])
      ensures forall k :: 0 <= k < |data.offsets| ==>
                && dividers[k].left == PercentLeft(data.offsets[k].position, clientWidth)
                && labelBars[k].left == PercentLeft(data.offsets[k].position, clientWidth)
                && labelBars[k].text == c.formatValue(data.offsets[k].time, data.precision)
    {
      var dividerOffsets := data.offsets;
      var precision := data.precision;
      ghost var oldDividers, oldLabelBars := dividers, labelBars;

      // The cursor i is the index of `divider` and `dividerLabelBar`; it is
      // past the end of the lists where the source's cursor is null.
      var i := 0;
      while i < |dividerOffsets|
        invariant 0 <= i <= |dividerOffsets|
        invariant |dividers| == |labelBars| == (if i < |oldDividers| then |oldDividers| else i)
        invariant NoRepeats(dividers) && NoRepeats(labelBars)
        invariant forall k :: 0 <= k < |oldDividers| ==> dividers[k] == oldDividers[k] && labelBars[k] == oldLabelBars[k]
        invariant forall k :: |oldDividers| <= k < |dividers| ==> fresh(dividers[k]) && fresh(labelBars[k])
        invariant forall k :: i <= k < |oldDividers| ==> unchanged(oldDividers[k]) && unchanged(oldLabelBars[k])
        invariant forall k :: 0 <= k < i ==>
                    && dividers[k].left == PercentLeft(dividerOffsets[k].position, clientWidth)
                    && labelBars[k].left == PercentLeft(dividerOffsets[k].position, clientWidth)
                    && labelBars[k].text == c.formatValue(dividerOffsets[k].time, precision)
      {
        if i == |dividers| {
          AppendElements();
        }
        var time := dividerOffsets[i].time;
        var position := dividerOffsets[i].position;
        var percentLeft := PercentLeft(position, clientWidth);
        SetElements(i, percentLeft, c.formatValue(time, precision));
        i := i + 1;
      }
    }

    /** Lines 181-192: a new divider and a new label bar at the end of the lists. */
    method AppendElements()
      requires Valid()
      modifies this
      ensures Valid() && |dividers| == |old(dividers)| + 1
      ensures dividers[..|old(dividers)|] == old(dividers) && labelBars[..|old(labelBars)|] == old(labelBars)
      ensures fresh(dividers[|old(dividers)|]) && fresh(labelBars[|old(labelBars)|])
    {
      var divider := new Divider();
      dividers := dividers + [divider];
      var dividerLabelBar := new LabelBar();
      labelBars := labelBars + [dividerLabelBar];
    }

    /** Lines 195-207: the label text and the position of the elements at cursor i. */
    method SetElements(i: nat, left: Left, text: string)
      requires i < |dividers| && i < |labelBars|
      modifies dividers[i], labelBars[i]
      ensures dividers[i].left == left && labelBars[i].left == left && labelBars[i].text == text
    {
      labelBars[i].text := text;
      dividers[i].left := left;
      labelBars[i].left := left;
    }

    /** Lines 216-224: remove the dividers from the cursor on, one at a time. */
    method RemoveDividersFrom(n: nat)
      requires n <= |dividers|
      modifies this
      ensures dividers == old(dividers[..n]) && labelBars == old(labelBars)
    {
      while n < |dividers|
        invariant n <= |dividers| && dividers[..n] == old(dividers[..n]) && labelBars == old(labelBars)
        decreases |dividers|
      {
        dividers := dividers[..n] + dividers[n + 1..];
      }
    }

    /** Lines 225-233: remove the label bars from the cursor on, one at a time. */
    method RemoveLabelBarsFrom(n: nat)
      requires n <= |labelBars|
      modifies this
      ensures labelBars == old(labelBars[..n]) && dividers == old(dividers)
    {
      while n < |labelBars|
        invariant n <= |labelBars| && labelBars[..n] == old(labelBars[..n]) && dividers == old(dividers)
        decreases |labelBars|
      {
        labelBars := labelBars[..n] + labelBars[n + 1..];
      }
    }
  }
}
