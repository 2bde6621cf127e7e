/**
 * The optimizer of OptimizationService: a population search over the stations'
 * outlet pressures. GasDuctCalc is an oracle from the stations' pressures to the
 * feasibility verdict and the solved node pressures and pipe flows it leaves in
 * the parameter object; LoadData is the one of the calculation module. Math.Log
 * is a parameter, and System.Random is a supplied stream of draws in [0, 1)
 * read through a cursor.
 */
module Optimization {
  import opened Numerics
  import opened Components
  import opened Calculation

  /** What GasDuctCalc leaves behind: its verdict, the node pressures and the pipe flows. */
  datatype Solved = Solved(feasible: bool, dotPressure: seq<real>, pipeFlow: seq<real>)

  /** How FindOptimalPressures ended. */
  datatype Outcome =
    | NoStations      // nothing to optimize; no solve was made
    | NoImprovement   // the best found is no better than the starting pressures
    | Improved        // the best pressures were applied and the confirming solve was feasible
    | RolledBack      // the confirming solve was infeasible; the starting pressures were written back

  /** Generations without an improvement that stop the search. */
  const MaxNoImprovement: int := 200
  /** An improvement of the global best smaller than this counts as none. */
  const ImprovementTolerance: real := 0.000001
  /** A station may go this far below its current pressure... */
  const LowerMargin: real := 50000.0
  /** ...and this far above it. */
  const UpperMargin: real := 10000.0

  /** The objective of a feasible solve: 0.7 per unit of power less 200 per unit of efficiency. */
  function Score(totalPower: real, totalEfficiency: real): real
  {
    0.7 * totalPower - 200.0 * totalEfficiency
  }

  /** Less power and more efficiency never score worse. */
  lemma ScorePrefersLessPowerMoreEfficiency(p1: real, e1: real, p2: real, e2: real)
    requires p1 <= p2 && e1 >= e2
    ensures Score(p1, e1) <= Score(p2, e2)
  {
  }

  /** Math.Round applied to each coordinate: whole numbers, each within half of its coordinate, ties to even. */
  function RoundAll(p: seq<real>): (r: seq<real>)
    ensures |r| == |p|
    ensures forall i | 0 <= i < |p| :: r[i].Floor as real == r[i] && -0.5 <= p[i] - r[i] <= 0.5
    ensures forall i | 0 <= i < |p| :: (p[i] - r[i] == 0.5 || p[i] - r[i] == -0.5) ==> r[i].Floor % 2 == 0
  {
    seq(|p|, i requires 0 <= i < |p| => RoundHalfEven(p[i]) as real)
  }

  /** The stations' TempPressure values. */
  function Pressures(stations: seq<Station>): (p: seq<real>)
    ensures |p| == |stations| && forall i | 0 <= i < |stations| :: p[i] == stations[i].tempPressure
  {
    seq(|stations|, i requires 0 <= i < |stations| => stations[i].tempPressure)
  }

  /** The stations with the given TempPressure values, each otherwise unchanged. */
  function WithPressures(stations: seq<Station>, p: seq<real>): (r: seq<Station>)
    requires |p| == |stations|
    ensures |r| == |stations| && Pressures(r) == p
    ensures forall i | 0 <= i < |stations| :: r[i] == stations[i].(tempPressure := p[i])
  {
    seq(|stations|, i requires 0 <= i < |stations| => stations[i].(tempPressure := p[i]))
  }

  /** The figures with the stations set to the given pressures. */
  function Retemp(f: Figures, p: seq<real>): Figures
    requires |p| == |f.stations|
  {
    f.(stations := WithPressures(f.stations, p))
  }

  /** Setting the pressures keeps the network. */
  lemma RetempKeepsNetwork(f: Figures, p: seq<real>, dots: map<string, int>, pipes: map<string, int>)
    requires |p| == |f.stations|
    ensures SameNetwork(f, Retemp(f, p), dots, pipes)
  {
  }

  /** The parameter object after a solve: its vectors replaced, its dictionaries and node pairs kept. */
  function Solving(sol: Solution, r: Solved): Solution
  {
    sol.(dotPressure := r.dotPressure, pipeFlow := r.pipeFlow)
  }

  /**
   * noImprovementCount at the end of a curve of global-best fitness: the entries
   * in a row, at its end, that improve on the entry before by no more than the
   * tolerance.
   */
  function Stalls(curve: seq<real>): (s: nat)
    requires |curve| >= 1
    ensures s <= |curve| - 1
  {
    if |curve| == 1 then 0
    else if curve[|curve| - 1] < curve[|curve| - 2] - ImprovementTolerance then 0
    else Stalls(curve[..|curve| - 1]) + 1
  }

  /**
   * What Stalls counts: the last s entries each improve on the one before by no
   * more than the tolerance, and unless the run reaches back to the first entry,
   * the entry before the run improved by more.
   */
  lemma {:induction false} StallsCountsRun(curve: seq<real>)
    requires |curve| >= 1
    ensures var s := Stalls(curve);
      && (forall j | |curve| - s <= j < |curve| :: curve[j] >= curve[j - 1] - ImprovementTolerance)
      && (s < |curve| - 1 ==> curve[|curve| - 1 - s] < curve[|curve| - 2 - s] - ImprovementTolerance)
  {
    if |curve| > 1 && curve[|curve| - 1] >= curve[|curve| - 2] - ImprovementTolerance {
      var shorter := curve[..|curve| - 1];
      StallsCountsRun(shorter);
      forall j | |curve| - Stalls(curve) <= j < |curve| - 1
        ensures curve[j] >= curve[j - 1] - ImprovementTolerance
      {
        assert curve[j] == shorter[j] && curve[j - 1] == shorter[j - 1];
      }
    }
  }

  /** The curve never rises: each entry is at most the one before it. */
  predicate Descending(curve: seq<real>)
  {
    |curve| <= 1 || (curve[|curve| - 1] <= curve[|curve| - 2] && Descending(curve[..|curve| - 1]))
  }

  /** Descending, entry by entry. */
  lemma {:induction false} DescendingPairs(curve: seq<real>)
    requires Descending(curve)
    ensures forall g | 1 <= g < |curve| :: curve[g] <= curve[g - 1]
  {
    if |curve| > 1 {
      var shorter := curve[..|curve| - 1];
      DescendingPairs(shorter);
      forall g | 1 <= g < |curve|
        ensures curve[g] <= curve[g - 1]
      {
        if g < |curve| - 1 {
          assert curve[g] == shorter[g] && curve[g - 1] == shorter[g - 1];
        }
      }
    }
  }

  /**
   * One more generation on the curve: a value no higher than the last keeps the
   * curve descending, and the count restarts on an improvement above the
   * tolerance and otherwise grows by one.
   */
  lemma CurveStep(before: seq<real>, x: real)
    requires |before| >= 1 && x <= before[|before| - 1] && Descending(before)
    ensures Descending(before + [x])
    ensures Stalls(before + [x]) ==
      if x < before[|before| - 1] - ImprovementTolerance then 0 else Stalls(before) + 1
  {
    DescendingStep(before, x);
    StallsStep(before, x);
  }

  lemma DescendingStep(before: seq<real>, x: real)
    requires |before| >= 1
    ensures Descending(before + [x]) == (x <= before[|before| - 1] && Descending(before))
  {
    AppendLast(before, x);
    DescendingUnfold(before + [x], before, x, before[|before| - 1]);
  }

  lemma DescendingUnfold(curve: seq<real>, before: seq<real>, x: real, last: real)
    requires |curve| >= 2 && curve[..|curve| - 1] == before
    requires curve[|curve| - 1] == x && curve[|curve| - 2] == last
    ensures Descending(curve) == (x <= last && Descending(before))
  {
  }

  /** Appending one entry: dropping it gives the curve back, and it sits right after the old last entry. */
  lemma AppendLast(before: seq<real>, x: real)
    requires |before| >= 1
    ensures |before + [x]| >= 2 && (before + [x])[..|before + [x]| - 1] == before
    ensures (before + [x])[|before + [x]| - 1] == x && (before + [x])[|before + [x]| - 2] == before[|before| - 1]
  {
  }

  lemma StallsStep(before: seq<real>, x: real)
    requires |before| >= 1
    ensures Stalls(before + [x]) ==
      if x < before[|before| - 1] - ImprovementTolerance then 0 else Stalls(before) + 1
  {
    AppendLast(before, x);
    StallsUnfold(before + [x], before, x, before[|before| - 1]);
  }

  lemma StallsUnfold(curve: seq<real>, before: seq<real>, x: real, last: real)
    requires |curve| >= 2 && curve[..|curve| - 1] == before
    requires curve[|curve| - 1] == x && curve[|curve| - 2] == last
    ensures Stalls(curve) == if x < last - ImprovementTolerance then 0 else Stalls(before) + 1
  {
  }

  /** No prefix of the curve with a generation in it had reached the stall limit: the search went on after each. */
  predicate Continued(curve: seq<real>)
  {
    |curve| <= 1 || (Stalls(curve) < MaxNoImprovement && Continued(curve[..|curve| - 1]))
  }

  /** Continued for a curve one generation longer: the new count stays below the limit. */
  lemma ContinuedUnfold(curve: seq<real>, before: seq<real>)
    requires |curve| >= 2 && curve[..|curve| - 1] == before
    ensures Continued(curve) == (Stalls(curve) < MaxNoImprovement && Continued(before))
  {
  }

  /** Continued, prefix by prefix. */
  lemma {:induction false} ContinuedPrefixes(curve: seq<real>)
    requires Continued(curve)
    ensures forall g | 2 <= g <= |curve| :: Stalls(curve[..g]) < MaxNoImprovement
  {
    if |curve| > 1 {
      var shorter := curve[..|curve| - 1];
      ContinuedPrefixes(shorter);
      forall g | 2 <= g <= |curve|
        ensures Stalls(curve[..g]) < MaxNoImprovement
      {
        if g < |curve| {
          assert curve[..g] == shorter[..g];
        } else {
          assert curve[..g] == curve;
        }
      }
    }
  }

  // ---------------------------------------------------------------------------
  // Step grid and box
  // ---------------------------------------------------------------------------

  /** RoundToStepSize: the nearest multiple of the step (ties to the even multiple). */
  function SnapToStep(value: real, step: real): real
    requires step > 0.0
  {
    RoundHalfEven(value / step) as real * step
  }

  /** The snapped value is a whole number of steps, at most half a step away from the input. */
  lemma SnapToStepFacts(value: real, step: real)
    requires step > 0.0
    ensures -step / 2.0 <= SnapToStep(value, step) - value <= step / 2.0
    ensures OnGrid(SnapToStep(value, step), step)
  {
    var k := RoundHalfEven(value / step);
    var t := k as real - value / step;
    assert SnapToStep(value, step) == k as real * step;
    SnapOffset(value, step, k as real);
    assert SnapToStep(value, step) - value == t * step;
    ScaleHalf(t, step);
    MultipleOver(k as real, step);
    assert SnapToStep(value, step) / step == k as real;
  }

  /** k steps less the value is k less the value's quotient, in steps. */
  lemma SnapOffset(value: real, step: real, k: real)
    requires step > 0.0
    ensures k * step - value == (k - value / step) * step
  {
  }

  /** A multiple of the step divided by the step gives the multiplier back. */
  lemma MultipleOver(k: real, step: real)
    requires step > 0.0
    ensures (k * step) / step == k
  {
  }

  /** A whole number of steps. */
  predicate OnGrid(value: real, step: real)
    requires step > 0.0
  {
    (value / step).Floor as real == value / step
  }

  lemma ScaleHalf(t: real, step: real)
    requires step > 0.0 && -0.5 <= t <= 0.5
    ensures -step / 2.0 <= t * step <= step / 2.0
  {
  }

  /** Snapping a value that is already on the grid changes nothing. */
  lemma SnapToStepIdempotent(value: real, step: real)
    requires step > 0.0
    ensures SnapToStep(SnapToStep(value, step), step) == SnapToStep(value, step)
  {
    var k := RoundHalfEven(value / step);
    assert SnapToStep(value, step) / step == k as real;
    RoundHalfEvenOfInteger(k);
  }

  /** One coordinate of Clamp: into [lower, upper], then onto the grid. */
  function Clamped(value: real, lower: real, upper: real, step: real): real
    requires step > 0.0
  {
    SnapToStep(Max(lower, Min(value, upper)), step)
  }

  /** A clamped coordinate is on the grid and, when the box is not empty, within half a step of it. */
  lemma ClampedFacts(value: real, lower: real, upper: real, step: real)
    requires step > 0.0
    ensures OnGrid(Clamped(value, lower, upper, step), step)
    ensures lower <= upper ==>
      lower - step / 2.0 <= Clamped(value, lower, upper, step) <= upper + step / 2.0
  {
    var point := Max(lower, Min(value, upper));
    SnapToStepFacts(point, step);
    if lower <= upper {
      SnapWithin(point, lower, upper, step);
    }
  }

  // ---------------------------------------------------------------------------
  // The random source
  // ---------------------------------------------------------------------------

  /** System.Random as a stream of draws in [0, 1): NextDouble returns the next draw, Next(n) scales it. */
  class RandomSource {
    const draws: nat -> real
    var cursor: nat

    ghost predicate Valid()
    {
      forall k: nat :: 0.0 <= draws(k) < 1.0
    }

    constructor (draws: nat -> real)
      requires forall k: nat :: 0.0 <= draws(k) < 1.0
      ensures this.draws == draws && cursor == 0 && Valid()
    {
      this.draws := draws;
      cursor := 0;
    }

    method NextDouble() returns (u: real)
      requires Valid()
      modifies this`cursor
      ensures u == draws(old(cursor)) && 0.0 <= u < 1.0
      ensures cursor == old(cursor) + 1
    {
      u := draws(cursor);
      cursor := cursor + 1;
    }

    /** Next(n): the next draw scaled to a whole number below n. */
    method Next(n: nat) returns (k: int)
      requires Valid() && n >= 1
      modifies this`cursor
      ensures k == UniformIndex(draws(old(cursor)), n)
      ensures cursor == old(cursor) + 1
    {
      k := UniformIndex(draws(cursor), n);
      cursor := cursor + 1;
    }
  }

  /** (int)(u * n) for a draw u: one of 0 .. n - 1. */
  function UniformIndex(u: real, n: nat): (k: int)
    requires 0.0 <= u < 1.0 && n >= 1
    ensures 0 <= k < n
  {
    FractionOfCount(u, n);
    (u * n as real).Floor
  }

  lemma FractionOfCount(u: real, n: nat)
    requires 0.0 <= u < 1.0 && n >= 1
    ensures 0.0 <= u * n as real < n as real
  {
  }

  /** A draw in [0, 1) interpolates inside the box. */
  lemma Interpolate(lower: real, upper: real, u: real, point: real)
    requires lower <= upper && 0.0 <= u < 1.0 && point == lower + u * (upper - lower)
    ensures lower <= point <= upper
  {
    var w := upper - lower;
    assert w - u * w == (1.0 - u) * w;
    NonNegativeProduct(1.0 - u, w);
    NonNegativeProduct(u, w);
  }

  lemma NonNegativeProduct(a: real, b: real)
    requires a >= 0.0 && b >= 0.0
    ensures a * b >= 0.0
  {
  }

  /** The offset of a near-initial coordinate: up to a fifth of the box width either way. */
  function NearInitialOffset(lower: real, upper: real, u: real): real
  {
    (u - 0.5) * 2.0 * ((upper - lower) * 0.2)
  }

  // ---------------------------------------------------------------------------
  // GenerateNearInitialSolution as written
  // ---------------------------------------------------------------------------

  /**
   * Coordinate i of GenerateNearInitialSolution as the source writes it: the
   * offset uses station i's range, but the clamp is applied to a one-element
   * array and so uses the bounds of station 0. The result is on the grid and
   * within half a step of station 0's box, whichever station it is for.
   */
  function NearInitialCoordinateAsWritten(lower: seq<real>, upper: seq<real>, base: seq<real>, i: int, u: real, step: real): (r: real)
    requires step > 0.0 && 0 <= i < |base| && |lower| == |upper| == |base|
    ensures OnGrid(r, step)
    ensures lower[0] <= upper[0] ==> lower[0] - step / 2.0 <= r <= upper[0] + step / 2.0
  {
    var point := base[i] + NearInitialOffset(lower[i], upper[i], u);
    ClampedFacts(point, lower[0], upper[0], step);
    Clamped(point, lower[0], upper[0], step)
  }

  /** A near-initial value computed step by step, as the source does, clamps to the as-written coordinate. */
  lemma NearInitialAsWrittenOf(lower: seq<real>, upper: seq<real>, base: seq<real>, i: int, u: real, step: real, raw: real)
    requires step > 0.0 && 0 <= i < |base| && |lower| == |upper| == |base|
    requires raw == base[i] + (u - 0.5) * 2.0 * ((upper[i] - lower[i]) * 0.2)
    ensures NearInitialCoordinateAsWritten(lower, upper, base, i, u, step) == Clamped(raw, lower[0], upper[0], step)
  {
  }

  /**
   * With two stations at 600 kPa and 800 kPa, a zero offset and a 1 kPa step,
   * the second coordinate comes out at 610 kPa, far below the second station's
   * lower bound of 750 kPa.
   */
  lemma NearInitialAsWrittenLeavesBox()
    ensures var lower := [550000.0, 750000.0];
      var upper := [610000.0, 810000.0];
      var base := [600000.0, 800000.0];
      NearInitialCoordinateAsWritten(lower, upper, base, 1, 0.5, 1000.0) == 610000.0 &&
      NearInitialCoordinateAsWritten(lower, upper, base, 1, 0.5, 1000.0) < lower[1]
  {
    assert Max(550000.0, Min(800000.0, 610000.0)) == 610000.0;
    RoundHalfEvenOfInteger(610);
    assert 610000.0 / 1000.0 == 610 as real;
  }

  /**
   * Coordinate i of a near-initial candidate with each station's own bounds: on
   * the grid and within half a step of its own station's box.
   */
  function NearInitialCoordinate(lower: seq<real>, upper: seq<real>, base: seq<real>, i: int, u: real, step: real): (r: real)
    requires step > 0.0 && 0 <= i < |base| && |lower| == |upper| == |base|
    ensures OnGrid(r, step)
    ensures lower[i] <= upper[i] ==> lower[i] - step / 2.0 <= r <= upper[i] + step / 2.0
  {
    var point := base[i] + NearInitialOffset(lower[i], upper[i], u);
    ClampedFacts(point, lower[i], upper[i], step);
    Clamped(point, lower[i], upper[i], step)
  }

  /** A snapped interpolation is on the grid and, for a draw in [0, 1) and a non-empty box, within half a step of it. */
  lemma InterpolatedSnapFacts(lower: real, upper: real, u: real, step: real)
    requires step > 0.0
    ensures OnGrid(SnapToStep(lower + u * (upper - lower), step), step)
    ensures lower <= upper && 0.0 <= u < 1.0 ==>
      lower - step / 2.0 <= SnapToStep(lower + u * (upper - lower), step) <= upper + step / 2.0
  {
    var point := lower + u * (upper - lower);
    if lower <= upper && 0.0 <= u < 1.0 {
      Interpolate(lower, upper, u, point);
      SnapWithin(point, lower, upper, step);
    }
    SnapToStepFacts(point, step);
  }

  /** The snap of a point of the box is within half a step of the box. */
  lemma SnapWithin(point: real, lower: real, upper: real, step: real)
    requires step > 0.0 && lower <= point <= upper
    ensures lower - step / 2.0 <= SnapToStep(point, step) <= upper + step / 2.0
  {
    SnapToStepFacts(point, step);
  }

  /**
   * A coordinate of GenerateRandomSolution: the draw interpolated across the box,
   * then snapped; on the grid, and within half a step of the box.
   */
  function RandomCoordinate(lower: real, upper: real, u: real, step: real): (r: real)
    requires step > 0.0
    ensures OnGrid(r, step)
    ensures lower <= upper && 0.0 <= u < 1.0 ==> lower - step / 2.0 <= r <= upper + step / 2.0
  {
    InterpolatedSnapFacts(lower, upper, u, step);
    SnapToStep(lower + u * (upper - lower), step)
  }

  /** start advanced by count steps of width each, one step at a time. */
  function Offset(start: nat, width: nat, count: int): nat
    decreases count
  {
    if count <= 0 then start else Offset(start, width, count - 1) + width
  }

  /** Moving the start of a run of offsets moves every offset by the same amount. */
  lemma {:induction false} OffsetShift(shift: nat, start: nat, width: nat, count: int)
    ensures Offset(shift + start, width, count) == shift + Offset(start, width, count)
    decreases count
  {
    if count > 0 {
      OffsetShift(shift, start, width, count - 1);
    }
  }

  /** count steps of width take start to start + count * width. */
  lemma {:induction false} OffsetIsProduct(start: nat, width: nat, count: int)
    requires count >= 0
    ensures Offset(start, width, count) == start + count * width
  {
    if count > 0 {
      OffsetIsProduct(start, width, count - 1);
      NextMultiple(count - 1, width);
    }
  }

  /** Coordinate d of a seed from its draw u: near the base pressure (as the source writes it) or uniform in the box. */
  function SeedCoordinate(lower: seq<real>, upper: seq<real>, base: seq<real>, step: real, near: bool,
                          d: int, u: real): real
    requires step > 0.0 && |lower| == |upper| == |base| && 0 <= d < |base|
  {
    if near then NearInitialCoordinateAsWritten(lower, upper, base, d, u, step)
    else RandomCoordinate(lower[d], upper[d], u, step)
  }

  /**
   * The seed of slot i read from the draws from start on: a near-initial
   * candidate (as the source writes it) in the first nearSlots slots, a random
   * one from there on.
   */
  function SeedOf(lower: seq<real>, upper: seq<real>, base: seq<real>, step: real, nearSlots: int,
                  i: int, draws: nat -> real, start: nat): (s: seq<real>)
    requires step > 0.0 && |lower| == |upper| == |base|
    ensures |s| == |base|
  {
    seq(|base|, d requires 0 <= d < |base| => SeedCoordinate(lower, upper, base, step, i < nearSlots, d, draws(start + d)))
  }

  /** The seeds of slots 1 to count in order, slot j read from the draws at Offset(start, width, j - 1). */
  function SeedsOf(lower: seq<real>, upper: seq<real>, base: seq<real>, step: real, nearSlots: int,
                   draws: nat -> real, start: nat, width: nat, count: nat): (s: seq<seq<real>>)
    requires step > 0.0 && |lower| == |upper| == |base|
    ensures |s| == count
  {
    if count == 0 then []
    else SeedsOf(lower, upper, base, step, nearSlots, draws, start, width, count - 1) +
         [SeedOf(lower, upper, base, step, nearSlots, count, draws, Offset(start, width, count - 1))]
  }

  /** Entry k of SeedsOf is the seed of slot k + 1. */
  lemma {:induction false} SeedsOfAt(lower: seq<real>, upper: seq<real>, base: seq<real>, step: real, nearSlots: int,
                                     draws: nat -> real, start: nat, width: nat, count: nat)
    requires step > 0.0 && |lower| == |upper| == |base|
    ensures forall k | 0 <= k < count ::
      SeedsOf(lower, upper, base, step, nearSlots, draws, start, width, count)[k] ==
      SeedOf(lower, upper, base, step, nearSlots, k + 1, draws, Offset(start, width, k))
  {
    if count > 0 {
      SeedsOfAt(lower, upper, base, step, nearSlots, draws, start, width, count - 1);
    }
  }

  /** Every coordinate is within half a step of the box of the same index. */
  predicate WithinBoxes(p: seq<real>, lower: seq<real>, upper: seq<real>, step: real)
  {
    |p| == |lower| == |upper| &&
    forall d | 0 <= d < |p| :: lower[d] - step / 2.0 <= p[d] <= upper[d] + step / 2.0
  }

  /** With non-empty boxes and draws in [0, 1), the seeds of the random slots are within half a step of the boxes. */
  lemma SeedsInBoxes(lower: seq<real>, upper: seq<real>, base: seq<real>, step: real, nearSlots: int,
                     draws: nat -> real, start: nat, width: nat, count: nat)
    requires step > 0.0 && |lower| == |upper| == |base|
    requires forall d | 0 <= d < |base| :: lower[d] <= upper[d]
    requires forall k: nat :: 0.0 <= draws(k) < 1.0
    ensures forall k | 0 <= k < count && nearSlots <= k + 1 ::
      WithinBoxes(SeedsOf(lower, upper, base, step, nearSlots, draws, start, width, count)[k], lower, upper, step)
  {
    SeedsOfAt(lower, upper, base, step, nearSlots, draws, start, width, count);
    forall k | 0 <= k < count && nearSlots <= k + 1
      ensures WithinBoxes(SeedOf(lower, upper, base, step, nearSlots, k + 1, draws, Offset(start, width, k)), lower, upper, step)
    {
      var at := Offset(start, width, k);
      var s := SeedOf(lower, upper, base, step, nearSlots, k + 1, draws, at);
      forall d | 0 <= d < |base|
        ensures lower[d] - step / 2.0 <= s[d] <= upper[d] + step / 2.0
      {
        assert s[d] == SeedCoordinate(lower, upper, base, step, false, d, draws(at + d));
      }
    }
  }

  /**
   * The fitness FitnessFunction reports for a position of the given network:
   * double.MaxValue when the solve of the rounded coordinates is infeasible,
   * else the score of the figures LoadData derives from that solve. A solve
   * LoadData could not read is given double.MaxValue only to keep the function
   * total: this is a convention of the model, not the source's behaviour, and
   * the optimizer only runs on networks where no such solve arises (Fitted).
   */
  ghost function FitnessAt(network: Figures, layout: Solution, gasDuctCalc: seq<real> -> Solved,
                           ln: real -> real, position: seq<real>): real
  {
    var solved := gasDuctCalc(RoundAll(position));
    if !solved.feasible || !Loadable(network, Solving(layout, solved)) then DoubleMax
    else
      var figures := Load(network, Solving(layout, solved), ln);
      Score(figures.totalPower, figures.totalEfficiency)
  }

  // ---------------------------------------------------------------------------
  // The optimizer
  // ---------------------------------------------------------------------------

  class Optimizer {
    const populationSize: int
    const maxIterations: int
    const stepSize: real
    /** GasDuctCalc as a function of the stations' TempPressure values. */
    const gasDuctCalc: seq<real> -> Solved
    /** Math.Log, as LoadData uses it. */
    const ln: real -> real

    var dimension: int
    var lowerBounds: seq<real>
    var upperBounds: seq<real>
    var basePressures: seq<real>
    var initialSolution: seq<real>
    var initialFitness: real
    /** The number of network solves made so far. */
    ghost var solveCount: nat
    /** The network as FindOptimalPressures received it. */
    ghost var network: Figures
    /** Its solved state: the node pairs and dictionaries every solve keeps. */
    ghost var layout: Solution
    /** The fitness of every position for that network; Scored ties it to FitnessOf. */
    ghost var scoreOf: seq<real> -> real

    constructor (populationSize: int, maxIterations: int, stepSize: real,
                 gasDuctCalc: seq<real> -> Solved, ln: real -> real)
      requires populationSize >= 1 && stepSize > 0.0
      ensures this.populationSize == populationSize && this.maxIterations == maxIterations
      ensures this.stepSize == stepSize && this.gasDuctCalc == gasDuctCalc && this.ln == ln
      ensures Configured() && solveCount == 0
    {
      this.populationSize := populationSize;
      this.maxIterations := maxIterations;
      this.stepSize := stepSize;
      this.gasDuctCalc := gasDuctCalc;
      this.ln := ln;
      dimension := 0;
      lowerBounds, upperBounds, basePressures, initialSolution := [], [], [], [];
      initialFitness := 0.0;
      solveCount := 0;
      network := Figures([], [], [], 0.0, 0.0, 0.0);
      layout := Solution([], [], [], map[], map[]);
      scoreOf := p => 0.0;
    }

    /** Slot 0 of the population must exist and the step must be positive. */
    predicate Configured()
    {
      populationSize >= 1 && stepSize > 0.0
    }

    /** Every solve of the given components leaves vectors LoadData can read, and every station can be split. */
    ghost predicate Solvable(components: SystemComponents)
      reads components, components.systemParameter
    {
      forall p: seq<real> :: Loadable(components.Snapshot(), Solving(components.systemParameter.SolutionOf(), gasDuctCalc(p)))
    }

    /** Solvable, for the network and solved state recorded when the optimization started. */
    ghost predicate Fitted()
      reads this`network, this`layout
    {
      forall p: seq<real> {:trigger Loadable(network, Solving(layout, gasDuctCalc(p)))} ::
        Loadable(network, Solving(layout, gasDuctCalc(p)))
    }

    /** The network is Fitted and scoreOf is FitnessOf. */
    ghost predicate Scored()
      reads this`network, this`layout, this`scoreOf
    {
      Fitted() &&
      forall p: seq<real> {:trigger FitnessAt(network, layout, gasDuctCalc, ln, p)} ::
        scoreOf(p) == FitnessAt(network, layout, gasDuctCalc, ln, p)
    }

    /**
     * The components are the recorded network: the same stations, users and pipes
     * seen through the recorded dictionaries, with the recorded node pairs.
     */
    ghost predicate Bound(components: SystemComponents)
      reads this`network, this`layout, components, components.systemParameter
    {
      components.systemParameter.pipeJunction == layout.pipeJunction &&
      components.systemParameter.dotNameDict == layout.dotNameDict &&
      components.systemParameter.pipeNameDict == layout.pipeNameDict &&
      SameNetwork(network, components.Snapshot(), layout.dotNameDict, layout.pipeNameDict)
    }

    /**
     * The stations are at the given pressures, the parameter object holds
     * GasDuctCalc's vectors for them, and when that solve was feasible the
     * components hold what LoadData derives from it.
     */
    ghost predicate Settled(components: SystemComponents, p: seq<real>)
      reads components, components.systemParameter
    {
      var solved := gasDuctCalc(p);
      Pressures(components.airCompressionStations) == p &&
      components.systemParameter.dotPressure == solved.dotPressure &&
      components.systemParameter.pipeFlow == solved.pipeFlow &&
      (solved.feasible ==> LoadedFrom(components.Snapshot(), components.systemParameter.SolutionOf(), ln))
    }

    /**
     * The fitness FitnessFunction reports for a position: double.MaxValue when the
     * solve of the rounded coordinates is infeasible, else the score of the figures
     * LoadData derives from that solve.
     */
    ghost function FitnessOf(position: seq<real>): real
      reads this`network, this`layout
    {
      FitnessAt(network, layout, gasDuctCalc, ln, position)
    }

    /** The solves of RunOptimization: one per seeded slot, then two per individual per generation. */
    function SearchSolves(generations: nat): nat
      requires Configured()
    {
      Offset(populationSize - 1, 2 * populationSize, generations)
    }

    /** In closed form: populationSize - 1 seeding solves and 2 * populationSize per generation. */
    lemma SearchSolvesCount(generations: nat)
      requires Configured()
      ensures SearchSolves(generations) == populationSize - 1 + 2 * populationSize * generations
    {
      OffsetIsProduct(populationSize - 1, 2 * populationSize, generations);
    }

    /** The bounds are set for every station and each box is non-empty. */
    predicate BoundsReady()
      reads this`dimension, this`lowerBounds, this`upperBounds, this`basePressures
    {
      |lowerBounds| == |upperBounds| == |basePressures| == dimension &&
      forall d | 0 <= d < dimension :: lowerBounds[d] <= upperBounds[d]
    }

    /** Every coordinate is within half a step of its station's box. */
    predicate InBox(p: seq<real>)
      reads this`lowerBounds, this`upperBounds
    {
      WithinBoxes(p, lowerBounds, upperBounds, stepSize)
    }

    /** Each fitness slot holds the fitness of the position in the same slot. */
    ghost predicate Tracked(population: array<seq<real>>, fitness: array<real>)
      reads this`dimension, this`scoreOf, population, fitness
    {
      population.Length == fitness.Length == populationSize &&
      forall i | 0 <= i < populationSize :: |population[i]| == dimension && fitness[i] == scoreOf(population[i])
    }

    /** RoundToStepSize. */
    function RoundToStepSize(value: real): (r: real)
      requires Configured()
      ensures -stepSize / 2.0 <= r - value <= stepSize / 2.0
      ensures OnGrid(r, stepSize)
    {
      SnapToStepFacts(value, stepSize);
      SnapToStep(value, stepSize)
    }

    /** InitializeBounds: each station's box runs from 50 kPa below to 10 kPa above its current pressure. */
    method InitializeBounds(components: SystemComponents)
      requires dimension == |components.airCompressionStations|
      modifies this`lowerBounds, this`upperBounds, this`basePressures
      ensures BoundsReady()
      ensures basePressures == Pressures(components.airCompressionStations)
      ensures forall d | 0 <= d < dimension ::
        lowerBounds[d] == basePressures[d] - LowerMargin && upperBounds[d] == basePressures[d] + UpperMargin
    {
      var stations := components.airCompressionStations;
      lowerBounds, upperBounds, basePressures := [], [], [];
      for i := 0 to dimension
        invariant |lowerBounds| == |upperBounds| == |basePressures| == i
        invariant forall d | 0 <= d < i ::
          basePressures[d] == stations[d].tempPressure &&
          lowerBounds[d] == basePressures[d] - LowerMargin && upperBounds[d] == basePressures[d] + UpperMargin
      {
        var currentPressure := stations[i].tempPressure;
        basePressures := basePressures + [currentPressure];
        lowerBounds := lowerBounds + [currentPressure - LowerMargin];
        upperBounds := upperBounds + [currentPressure + UpperMargin];
      }
    }

    /** ExtractCurrentSolution: the stations' current TempPressure values. */
    method ExtractCurrentSolution(components: SystemComponents) returns (solution: seq<real>)
      requires dimension == |components.airCompressionStations|
      ensures |solution| == dimension
      ensures forall i | 0 <= i < dimension :: solution[i] == components.airCompressionStations[i].tempPressure
    {
      solution := [];
      for i := 0 to dimension
        invariant |solution| == i
        invariant forall d | 0 <= d < i :: solution[d] == components.airCompressionStations[d].tempPressure
      {
        solution := solution + [components.airCompressionStations[i].tempPressure];
      }
    }

    /** Writes a TempPressure into every station, the rest of each station unchanged. */
    method SetTempPressures(components: SystemComponents, pressures: seq<real>)
      requires |pressures| == |components.airCompressionStations|
      modifies components`airCompressionStations
      ensures components.airCompressionStations == WithPressures(old(components.airCompressionStations), pressures)
    {
      ghost var before := components.airCompressionStations;
      for i := 0 to |pressures|
        invariant |components.airCompressionStations| == |before|
        invariant forall d | 0 <= d < i :: components.airCompressionStations[d] == before[d].(tempPressure := pressures[d])
        invariant forall d | i <= d < |pressures| :: components.airCompressionStations[d] == before[d]
      {
        var stations := components.airCompressionStations;
        components.airCompressionStations := stations[i := stations[i].(tempPressure := pressures[i])];
      }
      assert components.airCompressionStations == WithPressures(before, pressures);
    }

    /**
     * The stations are set to the given pressures and GasDuctCalc runs: its node
     * pressures and pipe flows go into the parameter object whatever the verdict,
     * and LoadData follows only when the solve is feasible.
     */
    method SolveAt(components: SystemComponents, pressures: seq<real>) returns (feasible: bool)
      requires |pressures| == |components.airCompressionStations| && Fitted() && Bound(components)
      modifies components, components.systemParameter`dotPressure, components.systemParameter`pipeFlow
      modifies components.systemParameter`totalPower, components.systemParameter`systemEfficiency
      modifies components.systemParameter`totalEfficiency, this`solveCount
      ensures feasible == gasDuctCalc(pressures).feasible
      ensures Settled(components, pressures)
      ensures var written := Retemp(old(components.Snapshot()), pressures);
        Loadable(written, components.systemParameter.SolutionOf()) &&
        components.Snapshot() == if feasible then Load(written, components.systemParameter.SolutionOf(), ln) else written
      ensures Bound(components)
      ensures solveCount == old(solveCount) + 1
    {
      ghost var before := components.Snapshot();
      SetTempPressures(components, pressures);
      ghost var written := components.Snapshot();
      assert written == Retemp(before, pressures);
      RetempKeepsNetwork(before, pressures, layout.dotNameDict, layout.pipeNameDict);
      SameNetworkTransitive(network, before, written, layout.dotNameDict, layout.pipeNameDict);
      var solved := gasDuctCalc(Pressures(components.airCompressionStations));
      var parameter := components.systemParameter;
      parameter.dotPressure, parameter.pipeFlow := solved.dotPressure, solved.pipeFlow;
      solveCount := solveCount + 1;
      feasible := solved.feasible;
      var sol := parameter.SolutionOf();
      assert sol == Solving(layout, solved);
      LoadOfSameNetwork(network, written, sol, ln);
      if feasible {
        Reload(components);
      }
    }

    /** LoadData on the recorded network: it stays the recorded network, keeps its pressures, and a second load would change nothing. */
    method Reload(components: SystemComponents)
      requires Bound(components) && Loadable(components.Snapshot(), components.systemParameter.SolutionOf())
      modifies components, components.systemParameter`totalPower, components.systemParameter`systemEfficiency
      modifies components.systemParameter`totalEfficiency
      ensures components.systemParameter.SolutionOf() == old(components.systemParameter.SolutionOf())
      ensures components.Snapshot() == Load(old(components.Snapshot()), components.systemParameter.SolutionOf(), ln)
      ensures LoadedFrom(components.Snapshot(), components.systemParameter.SolutionOf(), ln)
      ensures Pressures(components.airCompressionStations) == old(Pressures(components.airCompressionStations))
      ensures Bound(components)
    {
      ghost var before := components.Snapshot();
      ghost var sol := components.systemParameter.SolutionOf();
      LoadData(components, ln);
      LoadKeepsNetwork(before, sol, ln);
      SameNetworkTransitive(network, before, components.Snapshot(), layout.dotNameDict, layout.pipeNameDict);
      LoadIdempotent(before, sol, ln);
      assert Pressures(components.airCompressionStations) == Pressures(before.stations);
    }

    /**
     * FitnessFunction: every station's TempPressure becomes the rounded
     * coordinate and the network is solved (and loaded when feasible); the
     * result is double.MaxValue when infeasible, else the score of the loaded
     * total power and total efficiency.
     */
    method FitnessFunction(position: seq<real>, components: SystemComponents) returns (f: real)
      requires |position| == dimension == |components.airCompressionStations| && Scored() && Bound(components)
      modifies components, components.systemParameter`dotPressure, components.systemParameter`pipeFlow
      modifies components.systemParameter`totalPower, components.systemParameter`systemEfficiency
      modifies components.systemParameter`totalEfficiency, this`solveCount
      ensures f == scoreOf(position)
      ensures Settled(components, RoundAll(position))
      ensures var written := Retemp(old(components.Snapshot()), RoundAll(position));
        Loadable(written, components.systemParameter.SolutionOf()) &&
        components.Snapshot() ==
          if gasDuctCalc(RoundAll(position)).feasible then Load(written, components.systemParameter.SolutionOf(), ln)
          else written
      ensures Bound(components)
      ensures solveCount == old(solveCount) + 1
    {
      ghost var before := components.Snapshot();
      var isSatisfied := SolveAt(components, RoundAll(position));
      if !isSatisfied {
        f := DoubleMax;
      } else {
        var parameter := components.systemParameter;
        f := Score(parameter.totalPower, parameter.totalEfficiency);
        ghost var written := Retemp(before, RoundAll(position));
        RetempKeepsNetwork(before, RoundAll(position), layout.dotNameDict, layout.pipeNameDict);
        SameNetworkTransitive(network, before, written, layout.dotNameDict, layout.pipeNameDict);
        LoadOfSameNetwork(network, written, parameter.SolutionOf(), ln);
      }
      assert f == FitnessAt(network, layout, gasDuctCalc, ln, position);
    }

    /**
     * FitnessFunction as the search reads it: the position's fitness, the
     * components settled at it and still the recorded network, and one solve more.
     */
    method Evaluate(position: seq<real>, components: SystemComponents) returns (f: real)
      requires |position| == dimension == |components.airCompressionStations| && Scored() && Bound(components)
      modifies components, components.systemParameter`dotPressure, components.systemParameter`pipeFlow
      modifies components.systemParameter`totalPower, components.systemParameter`systemEfficiency
      modifies components.systemParameter`totalEfficiency, this`solveCount
      ensures f == scoreOf(position) && Settled(components, RoundAll(position))
      ensures Bound(components) && |components.airCompressionStations| == dimension
      ensures solveCount == old(solveCount) + 1
    {
      f := FitnessFunction(position, components);
    }

    /**
     * Clamp: each entry in place, into the box of the station with the same
     * index and onto the grid; the same array is returned. The array may be
     * shorter than the number of stations.
     */
    method Clamp(values: array<real>) returns (r: array<real>)
      requires Configured() && BoundsReady() && values.Length <= dimension
      modifies values
      ensures r == values
      ensures forall i | 0 <= i < values.Length ::
        values[i] == Clamped(old(values[i]), lowerBounds[i], upperBounds[i], stepSize)
      ensures forall i | 0 <= i < values.Length ::
        lowerBounds[i] - stepSize / 2.0 <= values[i] <= upperBounds[i] + stepSize / 2.0
    {
      for i := 0 to values.Length
        invariant forall d | 0 <= d < i :: values[d] == Clamped(old(values[d]), lowerBounds[d], upperBounds[d], stepSize)
        invariant forall d | i <= d < values.Length :: values[d] == old(values[d])
      {
        values[i] := Max(lowerBounds[i], Min(values[i], upperBounds[i]));
        values[i] := RoundToStepSize(values[i]);
      }
      forall d | 0 <= d < values.Length
        ensures lowerBounds[d] - stepSize / 2.0 <= values[d] <= upperBounds[d] + stepSize / 2.0
      {
        ClampedFacts(old(values[d]), lowerBounds[d], upperBounds[d], stepSize);
      }
      r := values;
    }

    /** GenerateRandomSolution: a uniform draw in each box, snapped to the grid. */
    method GenerateRandomSolution(rng: RandomSource) returns (solution: array<real>)
      requires Configured() && BoundsReady() && rng.Valid()
      modifies rng`cursor
      ensures fresh(solution) && solution.Length == dimension
      ensures forall i | 0 <= i < dimension ::
        solution[i] == RandomCoordinate(lowerBounds[i], upperBounds[i], rng.draws(old(rng.cursor) + i), stepSize)
      ensures InBox(solution[..])
      ensures rng.cursor == old(rng.cursor) + dimension
    {
      ghost var start := rng.cursor;
      var coordinates: seq<real> := [];
      for i := 0 to dimension
        invariant |coordinates| == i && rng.cursor == start + i
        invariant forall d | 0 <= d < i ::
          coordinates[d] == RandomCoordinate(lowerBounds[d], upperBounds[d], rng.draws(start + d), stepSize)
      {
        var u := rng.NextDouble();
        coordinates := coordinates + [RandomCoordinate(lowerBounds[i], upperBounds[i], u, stepSize)];
      }
      solution := new real[|coordinates|](j requires 0 <= j < |coordinates| => coordinates[j]);
      assert solution[..] == coordinates;
    }

    /**
     * One coordinate of GenerateNearInitialSolution as the source writes it:
     * the offset from station i's range, then a clamp of a one-element array.
     */
    method NearInitialValueAsWritten(i: int, rng: RandomSource) returns (v: real)
      requires Configured() && BoundsReady() && rng.Valid() && 0 <= i < dimension
      modifies rng`cursor
      ensures v == NearInitialCoordinateAsWritten(lowerBounds, upperBounds, basePressures, i,
                                                  rng.draws(old(rng.cursor)), stepSize)
      ensures rng.cursor == old(rng.cursor) + 1
    {
      var range := (upperBounds[i] - lowerBounds[i]) * 0.2;
      var u := rng.NextDouble();
      var offset := (u - 0.5) * 2.0 * range;
      var single := new real[1];
      single[0] := basePressures[i] + offset;
      NearInitialAsWrittenOf(lowerBounds, upperBounds, basePressures, i, u, stepSize, single[0]);
      single := Clamp(single);
      v := single[0];
    }

    /**
     * GenerateNearInitialSolution as the source writes it: base pressure plus an
     * offset of up to a fifth of the box width either way, then Clamp on a
     * one-element array holding that coordinate.
     */
    method GenerateNearInitialSolutionAsWritten(rng: RandomSource) returns (solution: array<real>)
      requires Configured() && BoundsReady() && rng.Valid()
      modifies rng`cursor
      ensures fresh(solution) && solution.Length == dimension
      ensures forall i | 0 <= i < dimension ::
        solution[i] == NearInitialCoordinateAsWritten(lowerBounds, upperBounds, basePressures, i,
                                                      rng.draws(old(rng.cursor) + i), stepSize)
      ensures rng.cursor == old(rng.cursor) + dimension
    {
      ghost var start := rng.cursor;
      solution := new real[dimension];
      for i := 0 to dimension
        invariant rng.cursor == start + i
        invariant forall d | 0 <= d < i ::
          solution[d] == NearInitialCoordinateAsWritten(lowerBounds, upperBounds, basePressures, d,
                                                        rng.draws(start + d), stepSize)
      {
        solution[i] := NearInitialValueAsWritten(i, rng);
      }
    }

    /**
     * GenerateNearInitialSolution with each coordinate clamped to its own
     * station's box: every coordinate lies within half a step of its box.
     */
    method GenerateNearInitialSolution(rng: RandomSource) returns (solution: array<real>)
      requires Configured() && BoundsReady() && rng.Valid()
      modifies rng`cursor
      ensures fresh(solution) && solution.Length == dimension
      ensures forall i | 0 <= i < dimension ::
        solution[i] == NearInitialCoordinate(lowerBounds, upperBounds, basePressures, i, rng.draws(old(rng.cursor) + i), stepSize)
      ensures InBox(solution[..])
      ensures rng.cursor == old(rng.cursor) + dimension
    {
      ghost var start := rng.cursor;
      var coordinates: seq<real> := [];
      for i := 0 to dimension
        invariant |coordinates| == i && rng.cursor == start + i
        invariant forall d | 0 <= d < i ::
          coordinates[d] == NearInitialCoordinate(lowerBounds, upperBounds, basePressures, d, rng.draws(start + d), stepSize)
      {
        var u := rng.NextDouble();
        coordinates := coordinates + [NearInitialCoordinate(lowerBounds, upperBounds, basePressures, i, u, stepSize)];
      }
      solution := new real[|coordinates|](j requires 0 <= j < |coordinates| => coordinates[j]);
      assert solution[..] == coordinates;
    }

    /** Seed i of the population, read from the next draws; the random seeds lie within the boxes. */
    method SeedCandidate(i: int, rng: RandomSource) returns (candidate: seq<real>)
      requires Configured() && BoundsReady() && rng.Valid()
      modifies rng`cursor
      ensures candidate == SeedOf(lowerBounds, upperBounds, basePressures, stepSize, populationSize / 2, i, rng.draws, old(rng.cursor))
      ensures i >= populationSize / 2 ==> InBox(candidate)
      ensures rng.cursor == old(rng.cursor) + dimension
    {
      var solution: array<real>;
      if i < populationSize / 2 {
        solution := GenerateNearInitialSolutionAsWritten(rng);
      } else {
        solution := GenerateRandomSolution(rng);
      }
      candidate := solution[..];
      assert forall d | 0 <= d < dimension ::
        candidate[d] == SeedCoordinate(lowerBounds, upperBounds, basePressures, stepSize, i < populationSize / 2,
                                       d, rng.draws(old(rng.cursor) + d));
    }

    /** Slot i of the seeding: its seed read from the next draws, and that seed's fitness from one solve. */
    method SeedSlot(i: int, components: SystemComponents, rng: RandomSource) returns (candidate: seq<real>, f: real)
      requires Configured() && BoundsReady() && rng.Valid() && Scored() && Bound(components)
      requires dimension == |components.airCompressionStations|
      modifies rng`cursor
      modifies components, components.systemParameter`dotPressure, components.systemParameter`pipeFlow
      modifies components.systemParameter`totalPower, components.systemParameter`systemEfficiency
      modifies components.systemParameter`totalEfficiency, this`solveCount
      ensures candidate == SeedOf(lowerBounds, upperBounds, basePressures, stepSize, populationSize / 2, i, rng.draws, old(rng.cursor)) && f == scoreOf(candidate)
      ensures i >= populationSize / 2 ==> InBox(candidate)
      ensures rng.cursor == old(rng.cursor) + dimension
      ensures Bound(components) && |components.airCompressionStations| == dimension
      ensures solveCount == old(solveCount) + 1
    {
      candidate := SeedCandidate(i, rng);
      f := Evaluate(candidate, components);
    }

    /**
     * The seeds of RunOptimization as sequences: slot 0 is the initial solution
     * with the initial fitness; slot i is the seed read from the draws after
     * those of the slots before it, with its fitness from one solve.
     */
    method SeedSlots(components: SystemComponents, rng: RandomSource)
      returns (positions: seq<seq<real>>, fitnesses: seq<real>)
      requires Configured() && BoundsReady() && rng.Valid() && Scored() && Bound(components)
      requires |initialSolution| == dimension == |components.airCompressionStations|
      requires initialFitness == scoreOf(initialSolution)
      modifies rng`cursor, components, components.systemParameter`dotPressure, components.systemParameter`pipeFlow
      modifies components.systemParameter`totalPower, components.systemParameter`systemEfficiency
      modifies components.systemParameter`totalEfficiency, this`solveCount
      ensures |positions| == |fitnesses| == populationSize
      ensures fitnesses[0] == initialFitness
      ensures forall i | 0 <= i < populationSize :: |positions[i]| == dimension && fitnesses[i] == scoreOf(positions[i])
      ensures positions == [initialSolution] + SeedsOf(lowerBounds, upperBounds, basePressures, stepSize, populationSize / 2,
                                                       rng.draws, old(rng.cursor), dimension, populationSize - 1)
      ensures forall i | 1 <= i < populationSize && populationSize / 2 <= i :: InBox(positions[i])
      ensures rng.cursor == Offset(old(rng.cursor), dimension, populationSize - 1)
      ensures Bound(components) && |components.airCompressionStations| == dimension
      ensures solveCount == old(solveCount) + populationSize - 1
    {
      ghost var start := rng.cursor;
      ghost var solvesBefore := solveCount;
      positions, fitnesses := [initialSolution], [initialFitness];
      ghost var width: nat, lower, upper, base, draws := dimension, lowerBounds, upperBounds, basePressures, rng.draws;
      for i := 1 to populationSize
        invariant |positions| == |fitnesses| == i
        invariant fitnesses[0] == initialFitness
        invariant forall j | 0 <= j < i :: |positions[j]| == dimension && fitnesses[j] == scoreOf(positions[j])
        invariant positions == [initialSolution] + SeedsOf(lower, upper, base, stepSize, populationSize / 2, draws, start, width, i - 1)
        invariant rng.cursor == Offset(start, dimension, i - 1)
        invariant Bound(components) && |components.airCompressionStations| == dimension
        invariant solveCount == solvesBefore + i - 1
      {
        var candidate, f := SeedSlot(i, components, rng);
        positions, fitnesses := positions + [candidate], fitnesses + [f];
      }
      assert lower == lowerBounds && upper == upperBounds && base == basePressures && draws == rng.draws;
      SeedsInBoxes(lower, upper, base, stepSize, populationSize / 2, draws, start, width, populationSize - 1);
    }

    /** The seeding of RunOptimization: the seeds of SeedSlots laid out in the population arrays. */
    method SeedPopulation(components: SystemComponents, rng: RandomSource)
      returns (population: array<seq<real>>, fitness: array<real>)
      requires Configured() && BoundsReady() && rng.Valid() && Scored() && Bound(components)
      requires |initialSolution| == dimension == |components.airCompressionStations|
      requires initialFitness == scoreOf(initialSolution)
      modifies rng`cursor, components, components.systemParameter`dotPressure, components.systemParameter`pipeFlow
      modifies components.systemParameter`totalPower, components.systemParameter`systemEfficiency
      modifies components.systemParameter`totalEfficiency, this`solveCount
      ensures fresh(population) && fresh(fitness)
      ensures Tracked(population, fitness)
      ensures fitness[0] == initialFitness
      ensures population[..] == [initialSolution] + SeedsOf(lowerBounds, upperBounds, basePressures, stepSize, populationSize / 2,
                                                            rng.draws, old(rng.cursor), dimension, populationSize - 1)
      ensures forall i | 1 <= i < populationSize && populationSize / 2 <= i :: InBox(population[i])
      ensures rng.cursor == Offset(old(rng.cursor), dimension, populationSize - 1)
      ensures Bound(components)
      ensures solveCount == old(solveCount) + populationSize - 1
    {
      var positions, fitnesses := SeedSlots(components, rng);
      population := new seq<real>[populationSize](j requires 0 <= j < populationSize => positions[j]);
      fitness := new real[populationSize](j requires 0 <= j < populationSize => fitnesses[j]);
    }

    /**
     * The global-best scan: a slot replaces the best only when strictly fitter,
     * so the best never gets worse, ends at most every slot's fitness, and is
     * either unchanged or a slot's position with that slot's fitness.
     */
    method UpdateGlobalBest(population: array<seq<real>>, fitness: array<real>, best: seq<real>, bestFitness: real)
      returns (globalBest: seq<real>, globalBestFitness: real)
      requires Tracked(population, fitness)
      ensures globalBestFitness <= bestFitness
      ensures forall i | 0 <= i < populationSize :: globalBestFitness <= fitness[i]
      ensures (globalBest == best && globalBestFitness == bestFitness) ||
        (globalBestFitness < bestFitness && exists i | 0 <= i < populationSize ::
          globalBest == population[i] && globalBestFitness == fitness[i])
    {
      globalBest, globalBestFitness := best, bestFitness;
      for i := 0 to populationSize
        invariant globalBestFitness <= bestFitness
        invariant forall j | 0 <= j < i :: globalBestFitness <= fitness[j]
        invariant (globalBest == best && globalBestFitness == bestFitness) ||
          (globalBestFitness < bestFitness && exists j | 0 <= j < populationSize ::
            globalBest == population[j] && globalBestFitness == fitness[j])
      {
        if fitness[i] < globalBestFitness {
          globalBest, globalBestFitness := population[i], fitness[i];
        }
      }
    }

    /** Greedy acceptance: a candidate replaces slot i only when strictly fitter. */
    method Accept(population: array<seq<real>>, fitness: array<real>, i: int, candidate: seq<real>,
                  components: SystemComponents)
      requires Tracked(population, fitness) && Scored() && Bound(components) && 0 <= i < populationSize
      requires |candidate| == dimension == |components.airCompressionStations|
      modifies population, fitness
      modifies components, components.systemParameter`dotPressure, components.systemParameter`pipeFlow
      modifies components.systemParameter`totalPower, components.systemParameter`systemEfficiency
      modifies components.systemParameter`totalEfficiency, this`solveCount
      ensures Tracked(population, fitness)
      ensures forall j | 0 <= j < populationSize && j != i :: population[j] == old(population[j]) && fitness[j] == old(fitness[j])
      ensures (population[i] == old(population[i]) && fitness[i] == old(fitness[i])) ||
        (population[i] == candidate && fitness[i] < old(fitness[i]))
      ensures Bound(components) && |components.airCompressionStations| == dimension
      ensures solveCount == old(solveCount) + 1
    {
      ghost var positions, fitnesses := population[..], fitness[..];
      var newFitness := Evaluate(candidate, components);
      assert population[..] == positions && fitness[..] == fitnesses;
      if newFitness < fitness[i] {
        population[i], fitness[i] := candidate, newFitness;
      }
    }

    /** Coordinate d of a phase-1 move before the clamp, from the draws I, p (perturbation) and r (fraction). */
    function SearchCoordinate(x: real, best: real, choice: int, p: real, r: real): real
      requires Configured()
    {
      SnapToStep(x + r * (best - choice as real * x) + (p - 0.5) * stepSize, stepSize)
    }

    /**
     * The phase-1 move read from the draws from start on: per coordinate the draws
     * I, the perturbation and the fraction, the move snapped, then clamped.
     */
    function SearchMoveOf(individual: seq<real>, globalBest: seq<real>, draws: nat -> real, start: nat): (s: seq<real>)
      requires Configured() && BoundsReady() && |individual| == |globalBest| == dimension
      requires forall k: nat :: 0.0 <= draws(k) < 1.0
      reads this`dimension, this`lowerBounds, this`upperBounds, this`basePressures
      ensures |s| == dimension
    {
      var n, lower, upper := dimension, lowerBounds, upperBounds;
      seq(n, d requires 0 <= d < n => Clamped(SearchDrawn(individual, globalBest, draws, start, d), lower[d], upper[d], stepSize))
    }

    /** Coordinate d of the phase-1 move before the clamp, from its three draws at start + 3 * d. */
    function SearchDrawn(individual: seq<real>, globalBest: seq<real>, draws: nat -> real, start: nat, d: nat): real
      requires Configured() && d < |individual| == |globalBest| && 0.0 <= draws(start + 3 * d) < 1.0
    {
      SearchCoordinate(individual[d], globalBest[d], UniformIndex(draws(start + 3 * d), 2),
                       draws(start + 3 * d + 1), draws(start + 3 * d + 2))
    }

    /**
     * The phase-2 move read from the draws from start on: one draw I for the
     * whole move, one fraction per coordinate, the move snapped, then clamped.
     */
    function AttackMoveOf(individual: seq<real>, target: seq<real>, draws: nat -> real, start: nat): (s: seq<real>)
      requires Configured() && BoundsReady() && |individual| == |target| == dimension
      requires forall k: nat :: 0.0 <= draws(k) < 1.0
      reads this`dimension, this`lowerBounds, this`upperBounds, this`basePressures
      ensures |s| == dimension
    {
      var n, lower, upper := dimension, lowerBounds, upperBounds;
      seq(n, d requires 0 <= d < n => Clamped(AttackDrawn(individual, target, draws, start, d), lower[d], upper[d], stepSize))
    }

    /** Coordinate d of the phase-2 move before the clamp, from the shared draw at start and its own at start + 1 + d. */
    function AttackDrawn(individual: seq<real>, target: seq<real>, draws: nat -> real, start: nat, d: nat): real
      requires Configured() && d < |individual| == |target| && 0.0 <= draws(start) < 1.0
    {
      AttackCoordinate(individual[d], target[d], UniformIndex(draws(start), 2), draws(start + 1 + d))
    }

    /** A move value computed step by step, as the source does, snaps to the coordinate the function gives. */
    lemma SearchCoordinateOf(x: real, best: real, choice: int, p: real, r: real, raw: real)
      requires Configured() && raw == x + r * (best - choice as real * x) + (p - 0.5) * stepSize
      ensures SearchCoordinate(x, best, choice, p, r) == SnapToStep(raw, stepSize)
    {
    }

    lemma AttackCoordinateOf(x: real, target: real, choice: int, r: real, raw: real)
      requires Configured() && raw == x + r * (target - choice as real * x)
      ensures AttackCoordinate(x, target, choice, r) == SnapToStep(raw, stepSize)
    {
    }

    /** Coordinate d of a phase-2 move before the clamp, from the shared draw I and the fraction r. */
    function AttackCoordinate(x: real, target: real, choice: int, r: real): real
      requires Configured()
    {
      SnapToStep(x + r * (target - choice as real * x), stepSize)
    }

    /** One coordinate of a phase-1 move before the clamp: the draws I, the perturbation and the fraction, then the snap. */
    method SearchStep(x: real, best: real, rng: RandomSource) returns (v: real)
      requires Configured() && rng.Valid()
      modifies rng`cursor
      ensures v == SearchCoordinate(x, best, UniformIndex(rng.draws(old(rng.cursor)), 2),
                                    rng.draws(old(rng.cursor) + 1), rng.draws(old(rng.cursor) + 2))
      ensures rng.cursor == old(rng.cursor) + 3
    {
      var I := rng.Next(2);
      var p := rng.NextDouble();
      var perturbation := (p - 0.5) * stepSize;
      var r := rng.NextDouble();
      v := x + r * (best - I as real * x) + perturbation;
      SearchCoordinateOf(x, best, I, p, r, v);
      v := RoundToStepSize(v);
    }

    /**
     * The phase-1 move of one individual toward the global best: three draws per
     * coordinate (I, the perturbation, the fraction), each coordinate snapped,
     * then the whole move clamped into the boxes.
     */
    method SearchMove(individual: seq<real>, globalBest: seq<real>, rng: RandomSource) returns (candidate: seq<real>)
      requires Configured() && BoundsReady() && rng.Valid()
      requires |individual| == |globalBest| == dimension
      modifies rng`cursor
      ensures candidate == SearchMoveOf(individual, globalBest, rng.draws, old(rng.cursor))
      ensures InBox(candidate)
      ensures rng.cursor == old(rng.cursor) + 3 * dimension
    {
      ghost var start := rng.cursor;
      var newSolution := new real[dimension];
      for d := 0 to dimension
        invariant rng.cursor == start + 3 * d
        invariant forall e | 0 <= e < d :: newSolution[e] == SearchDrawn(individual, globalBest, rng.draws, start, e)
      {
        newSolution[d] := SearchStep(individual[d], globalBest[d], rng);
      }
      newSolution := Clamp(newSolution);
      candidate := newSolution[..];
      assert forall d | 0 <= d < dimension :: candidate[d] == SearchMoveOf(individual, globalBest, rng.draws, start)[d];
    }

    /**
     * The phase-2 move of one individual toward the attacked one: one draw I
     * for the whole move, one fraction per coordinate, each coordinate snapped,
     * then the whole move clamped into the boxes.
     */
    method AttackMove(individual: seq<real>, attackedZebra: seq<real>, rng: RandomSource) returns (candidate: seq<real>)
      requires Configured() && BoundsReady() && rng.Valid()
      requires |individual| == |attackedZebra| == dimension
      modifies rng`cursor
      ensures candidate == AttackMoveOf(individual, attackedZebra, rng.draws, old(rng.cursor))
      ensures InBox(candidate)
      ensures rng.cursor == old(rng.cursor) + 1 + dimension
    {
      ghost var start := rng.cursor;
      var newSolution := new real[dimension];
      var I := rng.Next(2);
      for d := 0 to dimension
        invariant rng.cursor == start + 1 + d
        invariant forall e | 0 <= e < d :: newSolution[e] == AttackDrawn(individual, attackedZebra, rng.draws, start, e)
      {
        var r := rng.NextDouble();
        newSolution[d] := individual[d] + r * (attackedZebra[d] - I as real * individual[d]);
        AttackCoordinateOf(individual[d], attackedZebra[d], I, r, newSolution[d]);
        newSolution[d] := RoundToStepSize(newSolution[d]);
      }
      newSolution := Clamp(newSolution);
      candidate := newSolution[..];
      assert forall d | 0 <= d < dimension :: candidate[d] == AttackMoveOf(individual, attackedZebra, rng.draws, start)[d];
    }

    /**
     * Slot by slot, the population either kept its position and fitness or got a
     * strictly fitter position within the boxes.
     */
    predicate KeptOrImproved(p0: seq<seq<real>>, f0: seq<real>, p1: seq<seq<real>>, f1: seq<real>)
      reads this`lowerBounds, this`upperBounds
    {
      |p0| == |f0| == |p1| == |f1| &&
      forall j | 0 <= j < |p0| :: (p1[j] == p0[j] && f1[j] == f0[j]) || (f1[j] < f0[j] && InBox(p1[j]))
    }

    /** One slot's greedy acceptance of an in-box candidate keeps the population kept-or-improved. */
    lemma KeptOrImprovedStep(p0: seq<seq<real>>, f0: seq<real>, p1: seq<seq<real>>, f1: seq<real>,
                             p2: seq<seq<real>>, f2: seq<real>, i: int, candidate: seq<real>)
      requires KeptOrImproved(p0, f0, p1, f1) && InBox(candidate) && 0 <= i < |p1|
      requires |p2| == |p1| && |f2| == |f1|
      requires forall j | 0 <= j < |p1| && j != i :: p2[j] == p1[j] && f2[j] == f1[j]
      requires (p2[i] == p1[i] && f2[i] == f1[i]) || (p2[i] == candidate && f2[i] < f1[i])
      ensures KeptOrImproved(p0, f0, p2, f2)
    {
    }

    lemma KeptOrImprovedTransitive(p0: seq<seq<real>>, f0: seq<real>, p1: seq<seq<real>>, f1: seq<real>,
                                   p2: seq<seq<real>>, f2: seq<real>)
      requires KeptOrImproved(p0, f0, p1, f1) && KeptOrImproved(p1, f1, p2, f2)
      ensures KeptOrImproved(p0, f0, p2, f2)
    {
    }

    /** Individual i of phase 1: its search move, accepted only on strict improvement. */
    method SearchIndividual(population: array<seq<real>>, fitness: array<real>, i: int, globalBest: seq<real>,
                            rng: RandomSource, components: SystemComponents)
      requires Configured() && BoundsReady() && rng.Valid() && Tracked(population, fitness) && Scored() && Bound(components)
      requires |globalBest| == dimension == |components.airCompressionStations| && 0 <= i < populationSize
      modifies population, fitness, rng`cursor
      modifies components, components.systemParameter`dotPressure, components.systemParameter`pipeFlow
      modifies components.systemParameter`totalPower, components.systemParameter`systemEfficiency
      modifies components.systemParameter`totalEfficiency, this`solveCount
      ensures Tracked(population, fitness)
      ensures KeptOrImproved(old(population[..]), old(fitness[..]), population[..], fitness[..])
      ensures Bound(components) && |components.airCompressionStations| == dimension
      ensures rng.cursor == old(rng.cursor) + 3 * dimension
      ensures solveCount == old(solveCount) + 1
    {
      var candidate := SearchMove(population[i], globalBest, rng);
      Accept(population, fitness, i, candidate, components);
      KeptOrImprovedStep(old(population[..]), old(fitness[..]), old(population[..]), old(fitness[..]),
                         population[..], fitness[..], i, candidate);
    }

    /** Individual i of phase 2: its move toward the attacked one, accepted only on strict improvement. */
    method AttackIndividual(population: array<seq<real>>, fitness: array<real>, i: int, attackedZebra: seq<real>,
                            rng: RandomSource, components: SystemComponents)
      requires Configured() && BoundsReady() && rng.Valid() && Tracked(population, fitness) && Scored() && Bound(components)
      requires |attackedZebra| == dimension == |components.airCompressionStations| && 0 <= i < populationSize
      modifies population, fitness, rng`cursor
      modifies components, components.systemParameter`dotPressure, components.systemParameter`pipeFlow
      modifies components.systemParameter`totalPower, components.systemParameter`systemEfficiency
      modifies components.systemParameter`totalEfficiency, this`solveCount
      ensures Tracked(population, fitness)
      ensures KeptOrImproved(old(population[..]), old(fitness[..]), population[..], fitness[..])
      ensures Bound(components) && |components.airCompressionStations| == dimension
      ensures rng.cursor == old(rng.cursor) + 1 + dimension
      ensures solveCount == old(solveCount) + 1
    {
      var candidate := AttackMove(population[i], attackedZebra, rng);
      Accept(population, fitness, i, candidate, components);
      KeptOrImprovedStep(old(population[..]), old(fitness[..]), old(population[..]), old(fitness[..]),
                         population[..], fitness[..], i, candidate);
    }

    /**
     * Phase 1 (search): each individual in turn makes its search move, accepted
     * only on strict improvement.
     */
    method SearchPhase(population: array<seq<real>>, fitness: array<real>, globalBest: seq<real>,
                       rng: RandomSource, components: SystemComponents)
      requires Configured() && BoundsReady() && rng.Valid() && Tracked(population, fitness) && Scored() && Bound(components)
      requires |globalBest| == dimension == |components.airCompressionStations|
      modifies population, fitness, rng`cursor
      modifies components, components.systemParameter`dotPressure, components.systemParameter`pipeFlow
      modifies components.systemParameter`totalPower, components.systemParameter`systemEfficiency
      modifies components.systemParameter`totalEfficiency, this`solveCount
      ensures Tracked(population, fitness)
      ensures KeptOrImproved(old(population[..]), old(fitness[..]), population[..], fitness[..])
      ensures Bound(components) && |components.airCompressionStations| == dimension
      ensures rng.cursor == old(rng.cursor) + populationSize * (3 * dimension)
      ensures solveCount == old(solveCount) + populationSize
    {
      for i := 0 to populationSize
        invariant Tracked(population, fitness)
        invariant KeptOrImproved(old(population[..]), old(fitness[..]), population[..], fitness[..])
        invariant Bound(components) && |components.airCompressionStations| == dimension
        invariant rng.cursor == old(rng.cursor) + i * (3 * dimension)
        invariant solveCount == old(solveCount) + i
      {
        ghost var positions, fitnesses := population[..], fitness[..];
        SearchIndividual(population, fitness, i, globalBest, rng, components);
        KeptOrImprovedTransitive(old(population[..]), old(fitness[..]), positions, fitnesses, population[..], fitness[..]);
        NextMultiple(i, 3 * dimension);
      }
    }

    /**
     * The attacked individual of phase 2: one draw for Ps, which both of its
     * branches ignore, then a uniform slot of the population.
     */
    method PickAttacked(rng: RandomSource) returns (randomIndex: int)
      requires Configured() && rng.Valid()
      modifies rng`cursor
      ensures 0 <= randomIndex < populationSize
      ensures randomIndex == UniformIndex(rng.draws(old(rng.cursor) + 1), populationSize)
      ensures rng.cursor == old(rng.cursor) + 2
    {
      var ps := rng.NextDouble();
      randomIndex := rng.Next(populationSize);
    }

    /**
     * Phase 2 (attack response): one individual is picked at random and every
     * individual moves toward it; both branches on Ps do the same, so Ps only
     * consumes a draw. Acceptance is again strict.
     */
    method AttackPhase(population: array<seq<real>>, fitness: array<real>, rng: RandomSource,
                       components: SystemComponents)
      requires Configured() && BoundsReady() && rng.Valid() && Tracked(population, fitness) && Scored() && Bound(components)
      requires dimension == |components.airCompressionStations|
      modifies population, fitness, rng`cursor
      modifies components, components.systemParameter`dotPressure, components.systemParameter`pipeFlow
      modifies components.systemParameter`totalPower, components.systemParameter`systemEfficiency
      modifies components.systemParameter`totalEfficiency, this`solveCount
      ensures Tracked(population, fitness)
      ensures KeptOrImproved(old(population[..]), old(fitness[..]), population[..], fitness[..])
      ensures Bound(components) && |components.airCompressionStations| == dimension
      ensures rng.cursor == old(rng.cursor) + 2 + populationSize * (1 + dimension)
      ensures solveCount == old(solveCount) + populationSize
    {
      var randomIndex := PickAttacked(rng);
      var attackedZebra := population[randomIndex];
      AttackAll(population, fitness, attackedZebra, rng, components);
    }

    /** The moves of phase 2: every individual in turn toward the attacked one, accepted on strict improvement. */
    method AttackAll(population: array<seq<real>>, fitness: array<real>, attackedZebra: seq<real>,
                     rng: RandomSource, components: SystemComponents)
      requires Configured() && BoundsReady() && rng.Valid() && Tracked(population, fitness) && Scored() && Bound(components)
      requires |attackedZebra| == dimension == |components.airCompressionStations|
      modifies population, fitness, rng`cursor
      modifies components, components.systemParameter`dotPressure, components.systemParameter`pipeFlow
      modifies components.systemParameter`totalPower, components.systemParameter`systemEfficiency
      modifies components.systemParameter`totalEfficiency, this`solveCount
      ensures Tracked(population, fitness)
      ensures KeptOrImproved(old(population[..]), old(fitness[..]), population[..], fitness[..])
      ensures Bound(components) && |components.airCompressionStations| == dimension
      ensures rng.cursor == old(rng.cursor) + populationSize * (1 + dimension)
      ensures solveCount == old(solveCount) + populationSize
    {
      for i := 0 to populationSize
        invariant Tracked(population, fitness)
        invariant KeptOrImproved(old(population[..]), old(fitness[..]), population[..], fitness[..])
        invariant Bound(components) && |components.airCompressionStations| == dimension
        invariant rng.cursor == old(rng.cursor) + i * (1 + dimension)
        invariant solveCount == old(solveCount) + i
      {
        ghost var positions, fitnesses := population[..], fitness[..];
        AttackIndividual(population, fitness, i, attackedZebra, rng, components);
        KeptOrImprovedTransitive(old(population[..]), old(fitness[..]), positions, fitnesses, population[..], fitness[..]);
        NextMultiple(i, 1 + dimension);
      }
    }

    /**
     * One generation: phase 1, phase 2, then the global-best scan. The new
     * global best is never worse, is at most every slot's fitness, and is the
     * old one unless strictly fitter.
     */
    method Generation(population: array<seq<real>>, fitness: array<real>, globalBest: seq<real>,
                      globalBestFitness: real, rng: RandomSource, components: SystemComponents)
      returns (newBest: seq<real>, newBestFitness: real)
      requires Configured() && BoundsReady() && rng.Valid() && Tracked(population, fitness) && Scored() && Bound(components)
      requires |globalBest| == dimension == |components.airCompressionStations|
      requires globalBestFitness == scoreOf(globalBest)
      modifies population, fitness, rng`cursor
      modifies components, components.systemParameter`dotPressure, components.systemParameter`pipeFlow
      modifies components.systemParameter`totalPower, components.systemParameter`systemEfficiency
      modifies components.systemParameter`totalEfficiency, this`solveCount
      ensures Tracked(population, fitness)
      ensures Bound(components) && |components.airCompressionStations| == dimension
      ensures |newBest| == dimension && newBestFitness == scoreOf(newBest)
      ensures newBestFitness <= globalBestFitness
      ensures newBest == globalBest || newBestFitness < globalBestFitness
      ensures forall i | 0 <= i < populationSize :: newBestFitness <= fitness[i]
      ensures rng.cursor == old(rng.cursor) + populationSize * (3 * dimension) + 2 + populationSize * (1 + dimension)
      ensures solveCount == old(solveCount) + 2 * populationSize
    {
      SearchPhase(population, fitness, globalBest, rng, components);
      AttackPhase(population, fitness, rng, components);
      newBest, newBestFitness := UpdateGlobalBest(population, fitness, globalBest, globalBestFitness);
    }

    /**
     * The generation loop of RunOptimization, from the seeded population and its
     * global best. The curve starts at that best and gains the global best after
     * each generation; it never rises; the loop runs at most maxIterations
     * generations and stops early exactly when 200 generations in a row bring no
     * improvement above 1e-6.
     */
    method Evolve(population: array<seq<real>>, fitness: array<real>, best: seq<real>, bestFitness: real,
                  rng: RandomSource, components: SystemComponents)
      returns (globalBest: seq<real>, ghost generations: nat, ghost curve: seq<real>)
      requires Configured() && BoundsReady() && rng.Valid() && Tracked(population, fitness) && Scored() && Bound(components)
      requires |best| == dimension == |components.airCompressionStations| && bestFitness == scoreOf(best)
      modifies population, fitness, rng`cursor
      modifies components, components.systemParameter`dotPressure, components.systemParameter`pipeFlow
      modifies components.systemParameter`totalPower, components.systemParameter`systemEfficiency
      modifies components.systemParameter`totalEfficiency, this`solveCount
      ensures |globalBest| == dimension
      ensures scoreOf(globalBest) <= bestFitness
      ensures globalBest == best || scoreOf(globalBest) < bestFitness
      ensures generations <= maxIterations || generations == 0
      ensures |curve| == generations + 1 && curve[0] == bestFitness && curve[generations] == scoreOf(globalBest)
      ensures Descending(curve)
      ensures Continued(curve[..generations])
      ensures generations < maxIterations ==> Stalls(curve) == MaxNoImprovement
      ensures Bound(components) && |components.airCompressionStations| == dimension
      ensures solveCount == Offset(old(solveCount), 2 * populationSize, generations)
    {
      ghost var solvesBefore := solveCount;
      globalBest := best;
      var globalBestFitness := bestFitness;
      curve := [globalBestFitness];
      var noImprovementCount := 0;
      var iteration := 0;
      while iteration < maxIterations
        invariant 0 <= iteration && (iteration <= maxIterations || iteration == 0)
        invariant Tracked(population, fitness)
        invariant Bound(components) && |components.airCompressionStations| == dimension
        invariant |globalBest| == dimension && globalBestFitness == scoreOf(globalBest)
        invariant globalBestFitness <= bestFitness
        invariant globalBest == best || globalBestFitness < bestFitness
        invariant |curve| == iteration + 1 && curve[0] == bestFitness && curve[iteration] == globalBestFitness
        invariant Descending(curve)
        invariant noImprovementCount == Stalls(curve) < MaxNoImprovement && Continued(curve)
        invariant solveCount == Offset(solvesBefore, 2 * populationSize, iteration)
        decreases maxIterations - iteration
      {
        var previousBest := globalBestFitness;
        globalBest, globalBestFitness := Generation(population, fitness, globalBest, globalBestFitness, rng, components);
        if globalBestFitness < previousBest - ImprovementTolerance {
          noImprovementCount := 0;
        } else {
          noImprovementCount := noImprovementCount + 1;
        }
        CurveStep(curve, globalBestFitness);
        AppendLast(curve, globalBestFitness);
        ghost var before := curve;
        curve := curve + [globalBestFitness];
        iteration := iteration + 1;
        if noImprovementCount >= MaxNoImprovement {
          return globalBest, iteration, curve;
        }
        ContinuedUnfold(curve, before);
      }
      generations := iteration;
      assert generations >= 1 ==> curve[..|curve| - 1] == curve[..generations];
    }

    /**
     * The first part of RunOptimization: the population seeded, and the global
     * best taken from slot 0 (the initial solution) and the scan of every slot.
     */
    method Seed(components: SystemComponents, rng: RandomSource)
      returns (population: array<seq<real>>, fitness: array<real>, seededBest: seq<real>, seededFitness: real)
      requires Configured() && BoundsReady() && rng.Valid() && Scored() && Bound(components)
      requires |initialSolution| == dimension == |components.airCompressionStations|
      requires initialFitness == scoreOf(initialSolution)
      modifies rng`cursor
      modifies components, components.systemParameter`dotPressure, components.systemParameter`pipeFlow
      modifies components.systemParameter`totalPower, components.systemParameter`systemEfficiency
      modifies components.systemParameter`totalEfficiency, this`solveCount
      ensures fresh(population) && fresh(fitness) && Tracked(population, fitness)
      ensures |seededBest| == dimension && seededFitness == scoreOf(seededBest) && seededFitness <= initialFitness
      ensures seededBest == initialSolution || seededFitness < initialFitness
      ensures Bound(components) && |components.airCompressionStations| == dimension
      ensures solveCount == old(solveCount) + (populationSize - 1)
    {
      population, fitness := SeedPopulation(components, rng);
      assert population[0] == population[..][0] == initialSolution;
      seededBest, seededFitness := UpdateGlobalBest(population, fitness, population[0], fitness[0]);
    }

    /**
     * RunOptimization. The curve holds the global-best fitness after seeding and
     * then after each generation (the source's curve is its entries from index 1).
     * The returned best is never worse than the initial solution, and is the
     * initial solution itself unless strictly better; the curve never rises; the
     * search runs at most maxIterations generations and stops early exactly when
     * 200 generations in a row bring no improvement above 1e-6.
     */
    method RunOptimization(components: SystemComponents, rng: RandomSource)
      returns (globalBest: seq<real>, ghost generations: nat, ghost curve: seq<real>)
      requires Configured() && BoundsReady() && rng.Valid() && Scored() && Bound(components)
      requires |initialSolution| == dimension == |components.airCompressionStations|
      requires initialFitness == scoreOf(initialSolution)
      modifies rng`cursor
      modifies components, components.systemParameter`dotPressure, components.systemParameter`pipeFlow
      modifies components.systemParameter`totalPower, components.systemParameter`systemEfficiency
      modifies components.systemParameter`totalEfficiency, this`solveCount
      ensures |globalBest| == dimension
      ensures scoreOf(globalBest) <= initialFitness
      ensures globalBest == initialSolution || scoreOf(globalBest) < initialFitness
      ensures generations <= maxIterations || generations == 0
      ensures |curve| == generations + 1 && curve[0] <= initialFitness && curve[generations] == scoreOf(globalBest)
      ensures Descending(curve)
      ensures Continued(curve[..generations])
      ensures generations < maxIterations ==> Stalls(curve) == MaxNoImprovement
      ensures Bound(components) && |components.airCompressionStations| == dimension
      ensures solveCount == old(solveCount) + SearchSolves(generations)
    {
      var population, fitness, seededBest, seededFitness := Seed(components, rng);
      globalBest, generations, curve := Evolve(population, fitness, seededBest, seededFitness, rng, components);
      OffsetShift(old(solveCount), populationSize - 1, 2 * populationSize, generations);
    }

    /** RestoreInitialSolution: the unrounded starting pressures go back in and the network is solved again. */
    method RestoreInitialSolution(components: SystemComponents)
      requires |initialSolution| == |components.airCompressionStations| && Fitted() && Bound(components)
      modifies components, components.systemParameter`dotPressure, components.systemParameter`pipeFlow
      modifies components.systemParameter`totalPower, components.systemParameter`systemEfficiency
      modifies components.systemParameter`totalEfficiency, this`solveCount
      ensures Settled(components, initialSolution)
      ensures var written := Retemp(old(components.Snapshot()), initialSolution);
        Loadable(written, components.systemParameter.SolutionOf()) &&
        components.Snapshot() ==
          if gasDuctCalc(initialSolution).feasible then Load(written, components.systemParameter.SolutionOf(), ln)
          else written
      ensures Bound(components)
      ensures solveCount == old(solveCount) + 1
    {
      var feasible := SolveAt(components, initialSolution);
    }

    /** Every coordinate snapped to the step grid: each on the grid and within half a step of its coordinate. */
    function SnapAll(p: seq<real>): (r: seq<real>)
      requires Configured()
      ensures |r| == |p|
      ensures forall i | 0 <= i < |p| :: OnGrid(r[i], stepSize) && -stepSize / 2.0 <= r[i] - p[i] <= stepSize / 2.0
    {
      SnapEach(p, stepSize);
      seq(|p|, i requires 0 <= i < |p| => SnapToStep(p[i], stepSize))
    }

    /** The snapping of the best position before it is applied: every coordinate in turn. */
    method SnapPosition(position: seq<real>) returns (snapped: seq<real>)
      requires Configured()
      ensures snapped == SnapAll(position)
    {
      snapped := position;
      for i := 0 to |snapped|
        invariant |snapped| == |position|
        invariant forall d | 0 <= d < i :: snapped[d] == SnapToStep(position[d], stepSize)
        invariant forall d | i <= d < |position| :: snapped[d] == position[d]
      {
        snapped := snapped[i := RoundToStepSize(snapped[i])];
      }
    }

    /**
     * The network and its solve vectors as the fitness oracle sees them: every
     * later solve is of this network, and scoreOf is FitnessOf over it.
     */
    method Record(components: SystemComponents)
      requires Solvable(components)
      modifies this`network, this`layout, this`scoreOf
      ensures network == components.Snapshot() && layout == components.systemParameter.SolutionOf()
      ensures Scored() && Bound(components)
    {
      network := components.Snapshot();
      layout := components.systemParameter.SolutionOf();
      ghost var recorded, solved := network, layout;
      scoreOf := p => FitnessAt(recorded, solved, gasDuctCalc, ln, p);
    }

    /**
     * The start of FindOptimalPressures on a recorded network with stations: the
     * bounds are set, and the stations' pressures become the initial solution,
     * scored by one solve.
     */
    method Prepare(components: SystemComponents)
      requires Configured() && Scored() && Bound(components)
      requires dimension == |components.airCompressionStations| > 0
      modifies this`lowerBounds, this`upperBounds, this`basePressures
      modifies this`initialSolution, this`initialFitness, this`solveCount
      modifies components, components.systemParameter`dotPressure, components.systemParameter`pipeFlow
      modifies components.systemParameter`totalPower, components.systemParameter`systemEfficiency
      modifies components.systemParameter`totalEfficiency
      ensures BoundsReady() && Bound(components)
      ensures |components.airCompressionStations| == dimension
      ensures initialSolution == Pressures(old(components.airCompressionStations))
      ensures initialFitness == scoreOf(initialSolution)
      ensures solveCount == old(solveCount) + 1
    {
      InitializeBounds(components);
      initialSolution := ExtractCurrentSolution(components);
      initialFitness := Evaluate(initialSolution, components);
    }

    /**
     * The end of FindOptimalPressures once the search has returned its best:
     * a best no fitter than the initial solution leaves it in place; otherwise
     * the best is snapped to the step grid and solved once more, and kept when
     * that solve is feasible or replaced by the initial solution when not.
     */
    method Conclude(components: SystemComponents, bestPosition: seq<real>) returns (outcome: Outcome)
      requires Configured() && Scored() && Bound(components)
      requires |bestPosition| == |initialSolution| == dimension == |components.airCompressionStations|
      requires bestPosition == initialSolution || scoreOf(bestPosition) < initialFitness
      requires initialFitness == scoreOf(initialSolution)
      modifies components, components.systemParameter`dotPressure, components.systemParameter`pipeFlow
      modifies components.systemParameter`totalPower, components.systemParameter`systemEfficiency
      modifies components.systemParameter`totalEfficiency, this`solveCount
      ensures outcome != NoStations && Bound(components)
      ensures outcome == NoImprovement <==> bestPosition == initialSolution
      ensures outcome == NoImprovement ==>
        Settled(components, RoundAll(initialSolution)) && solveCount == old(solveCount) + 1
      ensures outcome == Improved ==>
        scoreOf(bestPosition) < initialFitness && gasDuctCalc(RoundAll(SnapAll(bestPosition))).feasible &&
        Settled(components, RoundAll(SnapAll(bestPosition))) && solveCount == old(solveCount) + 2
      ensures outcome == RolledBack ==>
        scoreOf(bestPosition) < initialFitness && !gasDuctCalc(RoundAll(SnapAll(bestPosition))).feasible &&
        Settled(components, initialSolution) && solveCount == old(solveCount) + 3
    {
      var bestFitness := Evaluate(bestPosition, components);
      if bestFitness >= initialFitness {
        assert bestPosition == initialSolution;
        return NoImprovement;
      }
      assert bestPosition != initialSolution;
      outcome := Confirm(components, bestPosition);
    }

    /**
     * The fitter best snapped to the step grid and solved once more: kept when
     * that solve is feasible, and the initial solution written back when not.
     */
    method Confirm(components: SystemComponents, bestPosition: seq<real>) returns (outcome: Outcome)
      requires Configured() && Scored() && Bound(components)
      requires |bestPosition| == |initialSolution| == dimension == |components.airCompressionStations|
      modifies components, components.systemParameter`dotPressure, components.systemParameter`pipeFlow
      modifies components.systemParameter`totalPower, components.systemParameter`systemEfficiency
      modifies components.systemParameter`totalEfficiency, this`solveCount
      ensures Bound(components)
      ensures outcome == Improved || outcome == RolledBack
      ensures outcome == Improved <==> gasDuctCalc(RoundAll(SnapAll(bestPosition))).feasible
      ensures outcome == Improved ==> Settled(components, RoundAll(SnapAll(bestPosition))) && solveCount == old(solveCount) + 1
      ensures outcome == RolledBack ==> Settled(components, initialSolution) && solveCount == old(solveCount) + 2
    {
      var snapped := SnapPosition(bestPosition);
      var confirmed := SolveAt(components, RoundAll(snapped));
      if confirmed {
        outcome := Improved;
      } else {
        RestoreInitialSolution(components);
        outcome := RolledBack;
      }
    }

    /** FindOptimalPressures on a network with stations: record, prepare, search, conclude. */
    method Optimize(components: SystemComponents, rng: RandomSource)
      returns (outcome: Outcome, ghost best: seq<real>, ghost generations: nat)
      requires Configured() && rng.Valid() && Solvable(components)
      requires dimension == |components.airCompressionStations| > 0
      modifies this`lowerBounds, this`upperBounds, this`basePressures
      modifies this`initialSolution, this`initialFitness, this`solveCount, this`network, this`layout, this`scoreOf
      modifies rng`cursor
      modifies components, components.systemParameter`dotPressure, components.systemParameter`pipeFlow
      modifies components.systemParameter`totalPower, components.systemParameter`systemEfficiency
      modifies components.systemParameter`totalEfficiency
      ensures outcome != NoStations
      ensures SameNetwork(old(components.Snapshot()), components.Snapshot(),
                          components.systemParameter.dotNameDict, components.systemParameter.pipeNameDict)
      ensures network == old(components.Snapshot()) && Scored() && Bound(components) &&
        initialSolution == Pressures(old(components.airCompressionStations)) &&
        initialFitness == FitnessOf(initialSolution) && |best| == dimension
      ensures outcome == NoImprovement ==>
        best == initialSolution && Settled(components, RoundAll(initialSolution)) &&
        solveCount == old(solveCount) + 2 + SearchSolves(generations)
      ensures outcome == Improved ==>
        FitnessOf(best) < initialFitness && gasDuctCalc(RoundAll(SnapAll(best))).feasible &&
        Settled(components, RoundAll(SnapAll(best))) &&
        solveCount == old(solveCount) + 3 + SearchSolves(generations)
      ensures outcome == RolledBack ==>
        FitnessOf(best) < initialFitness && !gasDuctCalc(RoundAll(SnapAll(best))).feasible &&
        Settled(components, initialSolution) &&
        solveCount == old(solveCount) + 4 + SearchSolves(generations)
    {
      Record(components);
      Prepare(components);
      var bestPosition;
      ghost var curve;
      bestPosition, generations, curve := RunOptimization(components, rng);
      ghost var searched := solveCount;
      assert searched == old(solveCount) + 1 + SearchSolves(generations);
      best := bestPosition;
      outcome := Conclude(components, bestPosition);
    }

    /**
     * FindOptimalPressures. Without stations nothing is solved or changed.
     * Otherwise the current pressures are the initial solution and the network
     * stays the same one throughout. When the search finds nothing strictly
     * better, the stations are left at the rounded initial pressures with that
     * solve written back; when it does, the snapped best is applied and solved,
     * and if that solve is infeasible the initial pressures are written back and
     * solved again. Each solve is loaded when feasible.
     */
    method FindOptimalPressures(components: SystemComponents, rng: RandomSource)
      returns (outcome: Outcome, ghost best: seq<real>, ghost generations: nat)
      requires Configured() && rng.Valid()
      requires |components.airCompressionStations| > 0 ==> Solvable(components)
      modifies this`dimension, this`lowerBounds, this`upperBounds, this`basePressures
      modifies this`initialSolution, this`initialFitness, this`solveCount, this`network, this`layout, this`scoreOf
      modifies rng`cursor
      modifies components, components.systemParameter`dotPressure, components.systemParameter`pipeFlow
      modifies components.systemParameter`totalPower, components.systemParameter`systemEfficiency
      modifies components.systemParameter`totalEfficiency
      ensures outcome == NoStations <==> |old(components.airCompressionStations)| == 0
      ensures outcome == NoStations ==>
        components.Snapshot() == old(components.Snapshot()) &&
        components.systemParameter.SolutionOf() == old(components.systemParameter.SolutionOf()) &&
        solveCount == old(solveCount)
      ensures SameNetwork(old(components.Snapshot()), components.Snapshot(),
                          components.systemParameter.dotNameDict, components.systemParameter.pipeNameDict)
      ensures outcome != NoStations ==>
        network == old(components.Snapshot()) && Scored() && Bound(components) &&
        initialSolution == Pressures(old(components.airCompressionStations)) &&
        initialFitness == FitnessOf(initialSolution) && |best| == dimension
      ensures outcome == NoImprovement ==>
        best == initialSolution && Settled(components, RoundAll(initialSolution)) &&
        solveCount == old(solveCount) + 2 + SearchSolves(generations)
      ensures outcome == Improved ==>
        FitnessOf(best) < initialFitness && gasDuctCalc(RoundAll(SnapAll(best))).feasible &&
        Settled(components, RoundAll(SnapAll(best))) &&
        solveCount == old(solveCount) + 3 + SearchSolves(generations)
      ensures outcome == RolledBack ==>
        FitnessOf(best) < initialFitness && !gasDuctCalc(RoundAll(SnapAll(best))).feasible &&
        Settled(components, initialSolution) &&
        solveCount == old(solveCount) + 4 + SearchSolves(generations)
    {
      dimension := |components.airCompressionStations|;
      if dimension == 0 {
        return NoStations, [], 0;
      }
      outcome, best, generations := Optimize(components, rng);
    }
  }

  lemma NextMultiple(i: int, k: int)
    ensures (i + 1) * k == i * k + k
  {
  }

  /** Every coordinate's snap is on the grid and within half a step. */
  lemma SnapEach(p: seq<real>, step: real)
    requires step > 0.0
    ensures forall i | 0 <= i < |p| ::
      OnGrid(SnapToStep(p[i], step), step) && -step / 2.0 <= SnapToStep(p[i], step) - p[i] <= step / 2.0
  {
    forall i | 0 <= i < |p|
      ensures OnGrid(SnapToStep(p[i], step), step) && -step / 2.0 <= SnapToStep(p[i], step) - p[i] <= step / 2.0
    {
      SnapToStepFacts(p[i], step);
    }
  }
}
