/**
 * The compressor valve split of a compressor station (CalculationService.CalculateValves):
 * given the flow a station must deliver and its identical compressors (maximum flow,
 * minimum opening degree), decide how many units to open, the opening degree of each,
 * the flow the opened units actually deliver and the flow wasted by the minimum degree.
 */
module Valves {
  import opened Numerics

  /**
   * The flow a set of opening degrees delivers, the sum of degree * maxFlow,
   * accumulated from the first unit to the last as the source does.
   */
  function Realised(degrees: seq<real>, maxFlow: real): real
  {
    if |degrees| == 0 then 0.0
    else Realised(degrees[..|degrees| - 1], maxFlow) + degrees[|degrees| - 1] * maxFlow
  }

  /** Mean opening degree if the target were shared by n units. */
  function AverageDegree(target: real, maxFlow: real, n: int): real
    requires maxFlow > 0.0 && n > 0
  {
    target / n as real / maxFlow
  }

  /** Degree left for each of the n - k units that share the remainder once k units run fully open. */
  function RemainderDegree(target: real, maxFlow: real, n: int, k: int): real
    requires maxFlow > 0.0 && 0 <= k < n
  {
    (target - k as real * maxFlow) / ((n - k) as real * maxFlow)
  }

  /** The waste rule: realised minus target, treated as no waste below 0.1 in magnitude. */
  function Waste(realised: real, target: real): (w: real)
    ensures w == 0.0 || w == realised - target
    ensures Abs(realised - target) < 0.1 <==> w == 0.0 || realised == target
    ensures w != 0.0 ==> Abs(w) >= 0.1
  {
    if Abs(realised - target) < 0.1 then 0.0 else realised - target
  }

  lemma RealisedAppend(a: seq<real>, b: seq<real>, maxFlow: real)
    ensures Realised(a + b, maxFlow) == Realised(a, maxFlow) + Realised(b, maxFlow)
    decreases |b|
  {
    if |b| == 0 {
      assert a + b == a;
    } else {
      var b' := b[..|b| - 1];
      assert (a + b)[..|a + b| - 1] == a + b';
      assert (a + b)[|a + b| - 1] == b[|b| - 1];
      RealisedAppend(a, b', maxFlow);
      assert Realised(a + b, maxFlow) == Realised(a + b', maxFlow) + b[|b| - 1] * maxFlow;
    }
  }

  /** m units at the same degree c deliver m * c * maxFlow. */
  lemma {:induction false} RealisedUniform(s: seq<real>, c: real, maxFlow: real)
    requires forall j | 0 <= j < |s| :: s[j] == c
    ensures Realised(s, maxFlow) == |s| as real * c * maxFlow
  {
    if |s| > 0 {
      var front := s[..|s| - 1];
      RealisedUniform(front, c, maxFlow);
      assert Realised(s, maxFlow) == Realised(front, maxFlow) + c * maxFlow;
      UniformStep(|front| as real, c, maxFlow);
    }
  }

  lemma UniformStep(k: real, c: real, maxFlow: real)
    ensures k * c * maxFlow + c * maxFlow == (k + 1.0) * c * maxFlow
  {
  }

  /**
   * The k-fully-open search in the source tries k = 1, 2, ... in turn, but the
   * remainder degree strictly falls as k grows whenever the target is below what
   * the opened units can deliver; so the search accepts at k = 1 or not at all.
   */
  lemma RemainderDegreeDecreasing(target: real, maxFlow: real, n: int, k1: int, k2: int)
    requires maxFlow > 0.0 && 0 <= k1 < k2 < n
    requires target < n as real * maxFlow
    ensures RemainderDegree(target, maxFlow, n, k2) < RemainderDegree(target, maxFlow, n, k1)
  {
    var a := n as real * maxFlow - target;
    RemainderComplement(target, maxFlow, n, k1);
    RemainderComplement(target, maxFlow, n, k2);
    ScaleStrict((n - k2) as real, (n - k1) as real, maxFlow);
    SmallerDivisorLargerQuotient(a, (n - k1) as real * maxFlow, (n - k2) as real * maxFlow);
  }

  /** The remainder degree is one minus the missing capacity over the capacity of the sharing units. */
  lemma RemainderComplement(target: real, maxFlow: real, n: int, k: int)
    requires maxFlow > 0.0 && 0 <= k < n
    ensures (n - k) as real * maxFlow > 0.0
    ensures RemainderDegree(target, maxFlow, n, k) ==
      1.0 - (n as real * maxFlow - target) / ((n - k) as real * maxFlow)
  {
    var d := (n - k) as real * maxFlow;
    ScaleStrict(0.0, (n - k) as real, maxFlow);
    assert d == n as real * maxFlow - k as real * maxFlow;
    SplitQuotient(target - k as real * maxFlow, n as real * maxFlow - target, d);
    assert RemainderDegree(target, maxFlow, n, k) == (target - k as real * maxFlow) / d;
  }

  lemma SplitQuotient(x: real, a: real, d: real)
    requires d > 0.0 && x == d - a
    ensures x / d == 1.0 - a / d
  {
    var q := 1.0 - a / d;
    assert a / d * d == a;
    assert q * d == d - a;
    CancelFactor(q, x / d, d);
  }

  lemma CancelFactor(p: real, q: real, d: real)
    requires d != 0.0 && p * d == q * d
    ensures p == q
  {
    assert (p - q) * d == 0.0;
  }

  lemma ScaleStrict(x: real, y: real, m: real)
    requires x < y && m > 0.0
    ensures x * m < y * m
  {
  }

  lemma SmallerDivisorLargerQuotient(a: real, d1: real, d2: real)
    requires a > 0.0 && d1 > d2 > 0.0
    ensures a / d1 < a / d2
  {
    assert a / d2 * d2 == a == a / d1 * d1;
    assert a / d1 * d2 < a / d1 * d1;
  }

  lemma RemainderDegreeBelowOne(target: real, maxFlow: real, n: int, k: int)
    requires maxFlow > 0.0 && 0 <= k < n
    requires target < n as real * maxFlow
    ensures RemainderDegree(target, maxFlow, n, k) < 1.0
  {
    var d := (n - k) as real * maxFlow;
    assert d > 0.0;
    assert target - k as real * maxFlow < d;
  }

  /** Some k in 1 .. n-1 is accepted exactly when k = 1 is. */
  lemma SearchAcceptsOnlyFirst(target: real, maxFlow: real, lowDegree: real, n: int)
    requires maxFlow > 0.0 && n >= 2
    requires target < n as real * maxFlow
    ensures (exists k :: 1 <= k < n && RemainderDegree(target, maxFlow, n, k) > lowDegree)
            <==> RemainderDegree(target, maxFlow, n, 1) > lowDegree
  {
    if exists k :: 1 <= k < n && RemainderDegree(target, maxFlow, n, k) > lowDegree {
      var k :| 1 <= k < n && RemainderDegree(target, maxFlow, n, k) > lowDegree;
      if k > 1 {
        RemainderDegreeDecreasing(target, maxFlow, n, 1, k);
      }
    }
  }

  /** Accepting k = 1 delivers the target exactly: maxFlow + (n-1) * r * maxFlow == target. */
  lemma FirstSplitIsExact(target: real, maxFlow: real, n: int)
    requires maxFlow > 0.0 && n >= 2
    ensures maxFlow + (n - 1) as real * RemainderDegree(target, maxFlow, n, 1) * maxFlow == target
  {
    var d := (n - 1) as real * maxFlow;
    var r := RemainderDegree(target, maxFlow, n, 1);
    assert d > 0.0;
    assert r * d == target - maxFlow;
    assert (n - 1) as real * r * maxFlow == r * d;
  }

  /**
   * Units opened for a target: none for a non-positive target, otherwise the (int)
   * truncation of target/maxFlow plus one, the smallest count whose capacity
   * strictly exceeds the target.
   */
  function OpenCount(target: real, maxFlow: real): (openNum: int)
    requires maxFlow > 0.0
    ensures target <= 0.0 ==> openNum == 0
    ensures target > 0.0 ==>
      openNum >= 1 && (openNum - 1) as real * maxFlow <= target < openNum as real * maxFlow
  {
    var n := if target <= 0.0 then 0 else Truncate(target / maxFlow) + 1;
    OpenCountBounds(target, maxFlow, n);
    n
  }

  /** The five results of CalculateValves. */
  datatype ValveOutcome = ValveOutcome(isSolvable: bool, valves: seq<real>, openNum: int,
                                       realTotalFlow: real, wasteTotalFlow: real)

  /**
   * The split in closed form: unsolvable with everything zero when more units than
   * exist would be needed, otherwise the layout, its realised flow and the waste rule.
   */
  function ValveSplit(compressorNum: nat, maxFlow: real, lowDegree: real, target: real): (r: ValveOutcome)
    requires maxFlow > 0.0
    ensures |r.valves| == compressorNum && r.openNum == OpenCount(target, maxFlow)
  {
    var openNum := OpenCount(target, maxFlow);
    if openNum > compressorNum then
      ValveOutcome(false, seq(compressorNum, _ => 0.0), openNum, 0.0, 0.0)
    else
      var valves := SplitLayout(compressorNum, openNum, maxFlow, lowDegree, target);
      var realised := Realised(valves, maxFlow);
      ValveOutcome(true, valves, openNum, realised, Waste(realised, target))
  }

  /**
   * CalculateValves, proved against ValveSplit: the loops of the source (the
   * k-fully-open search and the summing loop) produce the closed-form layout.
   */
  method CalculateValves(compressorNum: nat, maxFlow: real, lowDegree: real, objectiveFlow: real)
    returns (isSolvable: bool, valves: seq<real>, openNum: int, realTotalFlow: real, wasteTotalFlow: real)
    requires maxFlow > 0.0
    ensures ValveOutcome(isSolvable, valves, openNum, realTotalFlow, wasteTotalFlow) ==
            ValveSplit(compressorNum, maxFlow, lowDegree, objectiveFlow)
  {
    openNum := Truncate(objectiveFlow / maxFlow) + 1;
    if objectiveFlow <= 0.0 {
      openNum := 0;
    }
    assert openNum == OpenCount(objectiveFlow, maxFlow);

    if openNum > compressorNum {
      isSolvable := false;
      valves := seq(compressorNum, _ => 0.0);
      realTotalFlow := 0.0;
      wasteTotalFlow := 0.0;
    } else {
      isSolvable := true;
      valves, realTotalFlow := OpenUnits(compressorNum, maxFlow, lowDegree, objectiveFlow, openNum);
      wasteTotalFlow := realTotalFlow - objectiveFlow;
      if Abs(wasteTotalFlow) < 0.1 {
        wasteTotalFlow := 0.0;
      }
    }
  }

  /**
   * The layout the source produces, in closed form: with the search collapsed to
   * its only possible acceptance (k = 1), each opened unit's degree depends only
   * on the case the target falls in.
   */
  function SplitLayout(compressorNum: nat, openNum: int, maxFlow: real, lowDegree: real, target: real): (s: seq<real>)
    requires maxFlow > 0.0 && 0 <= openNum <= compressorNum
    ensures |s| == compressorNum
  {
    seq(compressorNum, j requires 0 <= j < compressorNum =>
      if j >= openNum then 0.0 else OpenDegree(j, openNum, maxFlow, lowDegree, target))
  }

  /** The degree of opened unit j of openNum. */
  function OpenDegree(j: int, openNum: int, maxFlow: real, lowDegree: real, target: real): real
    requires maxFlow > 0.0 && 0 <= j < openNum
  {
    if AverageDegree(target, maxFlow, openNum) < lowDegree then lowDegree
    else if openNum == 1 then Min(1.0, AverageDegree(target, maxFlow, openNum))
    else if RemainderDegree(target, maxFlow, openNum, 1) > lowDegree then
      (if j == 0 then 1.0 else Min(1.0, RemainderDegree(target, maxFlow, openNum, 1)))
    else if j < openNum - 1 then 1.0
    else lowDegree
  }

  /**
   * What each case of the layout delivers: the minimum-degree case openNum * d * maxFlow,
   * the single-unit and the accepted split exactly the target, the pinned split
   * (openNum - 1 + d) * maxFlow; closed units deliver nothing.
   */
  lemma SplitLayoutCases(compressorNum: nat, openNum: int, maxFlow: real, lowDegree: real, target: real)
    requires maxFlow > 0.0 && 0 <= openNum <= compressorNum
    requires openNum >= 1 ==> (openNum - 1) as real * maxFlow <= target < openNum as real * maxFlow
    ensures var s := SplitLayout(compressorNum, openNum, maxFlow, lowDegree, target);
      (forall j | openNum <= j < compressorNum :: s[j] == 0.0) &&
      Realised(s, maxFlow) == Realised(s[..openNum], maxFlow)
    ensures var s := SplitLayout(compressorNum, openNum, maxFlow, lowDegree, target);
      openNum >= 1 && AverageDegree(target, maxFlow, openNum) < lowDegree ==>
        (forall j | 0 <= j < openNum :: s[j] == lowDegree) &&
        Realised(s, maxFlow) == openNum as real * lowDegree * maxFlow
    ensures var s := SplitLayout(compressorNum, openNum, maxFlow, lowDegree, target);
      openNum == 1 && AverageDegree(target, maxFlow, 1) >= lowDegree ==>
        s[0] == target / maxFlow && Realised(s, maxFlow) == target
    ensures var s := SplitLayout(compressorNum, openNum, maxFlow, lowDegree, target);
      (openNum >= 2 && AverageDegree(target, maxFlow, openNum) >= lowDegree &&
       RemainderDegree(target, maxFlow, openNum, 1) > lowDegree) ==>
        s[0] == 1.0 &&
        (forall j | 1 <= j < openNum :: s[j] == RemainderDegree(target, maxFlow, openNum, 1)) &&
        lowDegree < s[openNum - 1] < 1.0 &&
        Realised(s, maxFlow) == target
    ensures var s := SplitLayout(compressorNum, openNum, maxFlow, lowDegree, target);
      (openNum >= 2 && AverageDegree(target, maxFlow, openNum) >= lowDegree &&
       RemainderDegree(target, maxFlow, openNum, 1) <= lowDegree) ==>
        (forall j | 0 <= j < openNum - 1 :: s[j] == 1.0) && s[openNum - 1] == lowDegree &&
        Realised(s, maxFlow) == ((openNum - 1) as real + lowDegree) * maxFlow
  {
    var s := SplitLayout(compressorNum, openNum, maxFlow, lowDegree, target);
    ClosedTailAddsNothing(s, openNum, maxFlow);
    if openNum >= 1 {
      var avg := AverageDegree(target, maxFlow, openNum);
      if avg < lowDegree {
        MinimumLayoutTotal(compressorNum, openNum, maxFlow, lowDegree, target);
      } else if openNum == 1 {
        SingleLayoutTotal(compressorNum, maxFlow, lowDegree, target);
      } else if RemainderDegree(target, maxFlow, openNum, 1) > lowDegree {
        FirstSplitLayoutTotal(compressorNum, openNum, maxFlow, lowDegree, target);
      } else {
        PinnedLayoutTotal(compressorNum, openNum, maxFlow, lowDegree, target);
      }
    }
  }

  lemma MinimumLayoutTotal(compressorNum: nat, openNum: int, maxFlow: real, lowDegree: real, target: real)
    requires maxFlow > 0.0 && 1 <= openNum <= compressorNum
    requires AverageDegree(target, maxFlow, openNum) < lowDegree
    ensures var s := SplitLayout(compressorNum, openNum, maxFlow, lowDegree, target);
      (forall j | 0 <= j < openNum :: s[j] == lowDegree) &&
      Realised(s[..openNum], maxFlow) == openNum as real * lowDegree * maxFlow
  {
    var s := SplitLayout(compressorNum, openNum, maxFlow, lowDegree, target);
    RealisedUniform(s[..openNum], lowDegree, maxFlow);
  }

  lemma SingleLayoutTotal(compressorNum: nat, maxFlow: real, lowDegree: real, target: real)
    requires maxFlow > 0.0 && 1 <= compressorNum && target < maxFlow
    requires AverageDegree(target, maxFlow, 1) >= lowDegree
    ensures var s := SplitLayout(compressorNum, 1, maxFlow, lowDegree, target);
      s[0] == target / maxFlow && Realised(s[..1], maxFlow) == target
  {
    var s := SplitLayout(compressorNum, 1, maxFlow, lowDegree, target);
    assert AverageDegree(target, maxFlow, 1) == target / maxFlow < 1.0;
    SingleUnitTotal(s[..1], maxFlow);
  }

  lemma FirstSplitLayoutTotal(compressorNum: nat, openNum: int, maxFlow: real, lowDegree: real, target: real)
    requires maxFlow > 0.0 && 2 <= openNum <= compressorNum && target < openNum as real * maxFlow
    requires AverageDegree(target, maxFlow, openNum) >= lowDegree
    requires RemainderDegree(target, maxFlow, openNum, 1) > lowDegree
    ensures var s := SplitLayout(compressorNum, openNum, maxFlow, lowDegree, target);
      s[0] == 1.0 &&
      (forall j | 1 <= j < openNum :: s[j] == RemainderDegree(target, maxFlow, openNum, 1)) &&
      lowDegree < s[openNum - 1] < 1.0 &&
      Realised(s[..openNum], maxFlow) == target
  {
    var s := SplitLayout(compressorNum, openNum, maxFlow, lowDegree, target);
    RemainderDegreeBelowOne(target, maxFlow, openNum, 1);
    FirstSplitTotal(s[..openNum], maxFlow, target);
  }

  lemma PinnedLayoutTotal(compressorNum: nat, openNum: int, maxFlow: real, lowDegree: real, target: real)
    requires maxFlow > 0.0 && 2 <= openNum <= compressorNum
    requires AverageDegree(target, maxFlow, openNum) >= lowDegree
    requires RemainderDegree(target, maxFlow, openNum, 1) <= lowDegree
    ensures var s := SplitLayout(compressorNum, openNum, maxFlow, lowDegree, target);
      (forall j | 0 <= j < openNum - 1 :: s[j] == 1.0) && s[openNum - 1] == lowDegree &&
      Realised(s[..openNum], maxFlow) == ((openNum - 1) as real + lowDegree) * maxFlow
  {
    var s := SplitLayout(compressorNum, openNum, maxFlow, lowDegree, target);
    PinnedSplitTotal(s[..openNum], maxFlow, lowDegree);
  }

  /**
   * What the split promises. openNum is 0 for a non-positive target and otherwise
   * the smallest count whose capacity exceeds it; more than compressorNum units is
   * unsolvable with everything zero. Otherwise units past openNum stay closed, the
   * realised flow is the sum of degree * maxFlow and the waste follows the 0.1 rule;
   * all opened units sit at the minimum when the average degree is below it; a
   * single unit, or one unit fully open with the rest sharing the remainder, delivers
   * the target exactly with no waste; otherwise all but the last unit run fully open
   * and the last is pinned at the minimum.
   */
  lemma ValveSplitCounts(compressorNum: nat, maxFlow: real, lowDegree: real, target: real)
    requires maxFlow > 0.0
    ensures var r := ValveSplit(compressorNum, maxFlow, lowDegree, target);
      r.isSolvable <==> r.openNum <= compressorNum
    ensures var r := ValveSplit(compressorNum, maxFlow, lowDegree, target);
      !r.isSolvable ==>
        (forall j | 0 <= j < compressorNum :: r.valves[j] == 0.0) && r.realTotalFlow == 0.0 && r.wasteTotalFlow == 0.0
    ensures var r := ValveSplit(compressorNum, maxFlow, lowDegree, target);
      forall j | 0 <= j < compressorNum && j >= r.openNum :: r.valves[j] == 0.0
    ensures var r := ValveSplit(compressorNum, maxFlow, lowDegree, target);
      r.isSolvable ==>
        r.valves == SplitLayout(compressorNum, r.openNum, maxFlow, lowDegree, target) &&
        r.realTotalFlow == Realised(r.valves, maxFlow) && r.wasteTotalFlow == Waste(r.realTotalFlow, target)
    ensures var r := ValveSplit(compressorNum, maxFlow, lowDegree, target);
      r.isSolvable && r.realTotalFlow == target ==> r.wasteTotalFlow == 0.0
  {
    var openNum := OpenCount(target, maxFlow);
    if openNum <= compressorNum {
      SplitLayoutCases(compressorNum, openNum, maxFlow, lowDegree, target);
    }
  }

  /** The solvable case: assign the degrees of the openNum opened units and sum their flow. */
  method OpenUnits(compressorNum: nat, maxFlow: real, lowDegree: real, objectiveFlow: real, openNum: int)
    returns (valves: seq<real>, realTotalFlow: real)
    requires maxFlow > 0.0 && 0 <= openNum <= compressorNum
    requires openNum >= 1 ==> objectiveFlow < openNum as real * maxFlow
    ensures valves == SplitLayout(compressorNum, openNum, maxFlow, lowDegree, objectiveFlow)
    ensures realTotalFlow == Realised(valves, maxFlow)
  {
    var a := new real[compressorNum](_ => 0.0);
    // With openNum == 0 the source's average degree is 0/0 or -Infinity; neither
    // branch it then takes writes a degree.
    if openNum > 0 {
      AssignDegrees(a, maxFlow, lowDegree, objectiveFlow, openNum);
    } else {
      assert a[..] == SplitLayout(compressorNum, openNum, maxFlow, lowDegree, objectiveFlow);
    }
    realTotalFlow := SumFlow(a, openNum, maxFlow);
    valves := a[..];
    ClosedTailAddsNothing(valves, openNum, maxFlow);
  }

  /** The source's summing loop over the opened units. */
  method SumFlow(a: array<real>, openNum: int, maxFlow: real) returns (total: real)
    requires 0 <= openNum <= a.Length
    ensures total == Realised(a[..openNum], maxFlow)
  {
    total := 0.0;
    for j := 0 to openNum
      invariant total == Realised(a[..j], maxFlow)
    {
      assert a[..j + 1][..j] == a[..j];
      total := total + a[j] * maxFlow;
    }
  }

  /** Units past openNum are closed and add nothing to the realised flow. */
  lemma ClosedTailAddsNothing(s: seq<real>, openNum: int, maxFlow: real)
    requires 0 <= openNum <= |s|
    requires forall j | openNum <= j < |s| :: s[j] == 0.0
    ensures Realised(s, maxFlow) == Realised(s[..openNum], maxFlow)
  {
    assert s == s[..openNum] + s[openNum..];
    RealisedUniform(s[openNum..], 0.0, maxFlow);
    RealisedAppend(s[..openNum], s[openNum..], maxFlow);
  }

  /** The three ways of assigning degrees to the openNum opened units. */
  method AssignDegrees(a: array<real>, maxFlow: real, lowDegree: real, objectiveFlow: real, openNum: int)
    requires maxFlow > 0.0 && 1 <= openNum <= a.Length
    requires objectiveFlow < openNum as real * maxFlow
    requires forall j | 0 <= j < a.Length :: a[j] == 0.0
    modifies a
    ensures a[..] == SplitLayout(a.Length, openNum, maxFlow, lowDegree, objectiveFlow)
  {
    var averageDegree := AverageDegree(objectiveFlow, maxFlow, openNum);
    if averageDegree < lowDegree {
      for i := 0 to openNum
        invariant forall j | 0 <= j < a.Length :: a[j] == if j < i then lowDegree else 0.0
      {
        a[i] := lowDegree;
      }
    } else if averageDegree >= lowDegree && openNum == 1 {
      a[0] := if averageDegree > 1.0 then 1.0 else averageDegree;
    } else {
      SplitSearch(a, maxFlow, lowDegree, objectiveFlow, openNum);
      RemainderDegreeBelowOne(objectiveFlow, maxFlow, openNum, 1);
    }
    assert forall j | 0 <= j < a.Length ::
      a[j] == SplitLayout(a.Length, openNum, maxFlow, lowDegree, objectiveFlow)[j];
  }

  lemma OpenCountBounds(objectiveFlow: real, maxFlow: real, openNum: int)
    requires maxFlow > 0.0
    requires openNum == if objectiveFlow <= 0.0 then 0 else Truncate(objectiveFlow / maxFlow) + 1
    ensures objectiveFlow > 0.0 ==>
      openNum >= 1 && (openNum - 1) as real * maxFlow <= objectiveFlow < openNum as real * maxFlow
  {
    if objectiveFlow > 0.0 {
      var q := objectiveFlow / maxFlow;
      assert q * maxFlow == objectiveFlow;
      assert q > 0.0;
      var f := Truncate(q);
      assert f >= 0;
      assert f as real <= q < f as real + 1.0;
      var g := f as real + 1.0;
      ScaleBetween(f as real, q, g, maxFlow);
      assert q * maxFlow < g * maxFlow;
      assert openNum == f + 1;
      assert (openNum - 1) as real == f as real && openNum as real == f as real + 1.0;
      assert (openNum - 1) as real * maxFlow == f as real * maxFlow;
      assert openNum as real == g;
      assert openNum as real * maxFlow == g * maxFlow;
      assert objectiveFlow < openNum as real * maxFlow;
      assert (openNum - 1) as real * maxFlow <= objectiveFlow;
    }
  }

  lemma ScaleBetween(lo: real, x: real, hi: real, c: real)
    requires lo <= x < hi && c > 0.0
    ensures lo * c <= x * c < hi * c
  {
  }

  /**
   * The loop of the k-fully-open search: for k = 1, 2, ... open k units fully,
   * pin the last at the minimum when only one is left, and stop at the first k
   * whose remainder degree exceeds the minimum, spreading it over the rest.
   */
  method SplitSearch(a: array<real>, maxFlow: real, lowDegree: real, objectiveFlow: real, openNum: int)
    requires maxFlow > 0.0 && 2 <= openNum <= a.Length
    requires objectiveFlow < openNum as real * maxFlow
    requires forall j | 0 <= j < a.Length :: a[j] == 0.0
    modifies a
    ensures forall j | openNum <= j < a.Length :: a[j] == 0.0
    ensures RemainderDegree(objectiveFlow, maxFlow, openNum, 1) > lowDegree ==>
      a[0] == 1.0 && forall j | 1 <= j < openNum :: a[j] == RemainderDegree(objectiveFlow, maxFlow, openNum, 1)
    ensures RemainderDegree(objectiveFlow, maxFlow, openNum, 1) <= lowDegree ==>
      (forall j | 0 <= j < openNum - 1 :: a[j] == 1.0) && a[openNum - 1] == lowDegree
  {
    var i := 1;
    while i < openNum
      invariant 1 <= i <= openNum
      invariant forall k | 1 <= k < i :: RemainderDegree(objectiveFlow, maxFlow, openNum, k) <= lowDegree
      invariant forall j | 0 <= j < a.Length ::
        a[j] == if j < i - 1 then 1.0 else if j == openNum - 1 && i == openNum then lowDegree else 0.0
    {
      for ii := 0 to i
        invariant forall j | 0 <= j < a.Length ::
          a[j] == if j < ii then 1.0 else if j < i - 1 then 1.0 else 0.0
      {
        a[ii] := 1.0;
      }

      var lastValvesNum := openNum - i;
      var lastAverageDegree: real;
      if lastValvesNum > 0 {
        lastAverageDegree := (objectiveFlow - i as real * maxFlow) / (lastValvesNum as real * maxFlow);
      } else {
        lastAverageDegree := 0.0;
      }
      assert lastAverageDegree == RemainderDegree(objectiveFlow, maxFlow, openNum, i);

      if i == openNum - 1 {
        a[i] := lowDegree;
      }

      if lastAverageDegree > lowDegree {
        if i > 1 {
          RemainderDegreeDecreasing(objectiveFlow, maxFlow, openNum, 1, i);
          assert false;
        }
        RemainderDegreeBelowOne(objectiveFlow, maxFlow, openNum, 1);
        var degree := if lastAverageDegree > 1.0 then 1.0 else lastAverageDegree;
        for j := 0 to lastValvesNum
          invariant forall m | 0 <= m < a.Length ::
            a[m] == if m < 1 then 1.0 else if openNum - j <= m < openNum then degree
                    else if m == openNum - 1 && openNum == 2 then lowDegree else 0.0
        {
          a[openNum - j - 1] := degree;
        }
        break;
      }
      i := i + 1;
    }
  }

  lemma SingleUnitTotal(s: seq<real>, maxFlow: real)
    requires |s| == 1
    ensures Realised(s, maxFlow) == s[0] * maxFlow
  {
    assert s[..0] == [];
  }

  /** One unit fully open and the rest at the k = 1 remainder degree deliver the target. */
  lemma FirstSplitTotal(s: seq<real>, maxFlow: real, target: real)
    requires maxFlow > 0.0 && |s| >= 2
    requires s[0] == 1.0 && forall j | 1 <= j < |s| :: s[j] == RemainderDegree(target, maxFlow, |s|, 1)
    ensures Realised(s, maxFlow) == target
  {
    FirstSplitIsExact(target, maxFlow, |s|);
    FirstOpenTotal(s, maxFlow, RemainderDegree(target, maxFlow, |s|, 1));
  }

  /** One unit fully open and the others at degree r deliver maxFlow + (n - 1) * r * maxFlow. */
  lemma FirstOpenTotal(s: seq<real>, maxFlow: real, r: real)
    requires |s| >= 2 && s[0] == 1.0 && forall j | 1 <= j < |s| :: s[j] == r
    ensures Realised(s, maxFlow) == maxFlow + (|s| - 1) as real * r * maxFlow
  {
    var head, tail := s[..1], s[1..];
    assert s == head + tail && head[0] == 1.0 && |tail| == |s| - 1;
    SingleUnitTotal(head, maxFlow);
    RealisedAppend(head, tail, maxFlow);
    RealisedUniform(tail, r, maxFlow);
    EqualFactors(|tail| as real, (|s| - 1) as real, r, maxFlow);
  }

  lemma EqualFactors(x1: real, x2: real, y: real, z: real)
    requires x1 == x2
    ensures x1 * y * z == x2 * y * z
  {
  }

  /** All but the last unit fully open and the last at lowDegree. */
  lemma PinnedSplitTotal(s: seq<real>, maxFlow: real, lowDegree: real)
    requires |s| >= 2
    requires (forall j | 0 <= j < |s| - 1 :: s[j] == 1.0) && s[|s| - 1] == lowDegree
    ensures Realised(s, maxFlow) == ((|s| - 1) as real + lowDegree) * maxFlow
  {
    var n := |s|;
    assert s[..n - 1] == s[..n - 1];
    RealisedUniform(s[..n - 1], 1.0, maxFlow);
  }
}
