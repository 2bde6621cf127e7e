/**
 * CalculationService without its hydraulic physics: the base-pressure transform of
 * the station pressures, the compressor power lines, the matrix conversion, the
 * zero-safe conductance diagonal, the control of the fixed-point loop, the
 * feasibility verdict and the figures LoadData derives from a solved network.
 */
module Calculation {
  import opened Numerics
  import opened Components
  import opened Valves

  // ---------------------------------------------------------------------------
  // Base pressure
  // ---------------------------------------------------------------------------

  /** The largest element (LINQ Max). */
  function MaxOf(s: seq<real>): (m: real)
    requires |s| > 0
    ensures m in s
    ensures forall i | 0 <= i < |s| :: s[i] <= m
  {
    if |s| == 1 then s[0]
    else
      var front := s[..|s| - 1];
      assert s == front + [s[|s| - 1]];
      Max(MaxOf(front), s[|s| - 1])
  }

  /**
   * TackleCompressionPress: the highest station pressure becomes the base and every
   * station is described by its drop below it; no stations give (0, []).
   */
  method TackleCompressionPress(compressionPress: seq<real>) returns (basePressure: real, relativePress: seq<real>)
    ensures |compressionPress| == 0 ==> basePressure == 0.0 && relativePress == []
    ensures |compressionPress| > 0 ==>
      basePressure in compressionPress &&
      |relativePress| == |compressionPress| &&
      (forall i | 0 <= i < |compressionPress| ::
         relativePress[i] == basePressure - compressionPress[i] && relativePress[i] >= 0.0) &&
      (exists i | 0 <= i < |relativePress| :: relativePress[i] == 0.0)
  {
    if |compressionPress| == 0 {
      return 0.0, [];
    }
    basePressure := MaxOf(compressionPress);
    var relative := new real[|compressionPress|];
    for i := 0 to |compressionPress|
      invariant forall j | 0 <= j < i :: relative[j] == basePressure - compressionPress[j]
    {
      relative[i] := basePressure - compressionPress[i];
    }
    relativePress := relative[..];
    var k :| 0 <= k < |compressionPress| && compressionPress[k] == basePressure;
    assert relativePress[k] == 0.0;
  }

  // ---------------------------------------------------------------------------
  // Power lines
  // ---------------------------------------------------------------------------

  /** The coefficients of a station's power line: a * p * 1e-5 + q * b - c. */
  datatype PowerLine = PowerLine(pressureCoef: real, flowCoef: real, offset: real)

  /** AS-1, AS-2 and AS-3 have their own lines; any other station uses the AS-1 line. */
  function PowerLineOf(stationIndex: string): PowerLine
  {
    if stationIndex == "AS-1" then PowerLine(51.7, 5.5833, 312.37)
    else if stationIndex == "AS-2" then PowerLine(51.5, 5.6867, 264.2)
    else if stationIndex == "AS-3" then PowerLine(34.3, 5.93, 238.0)
    else PowerLine(51.7, 5.5833, 312.37)
  }

  function RawPower(line: PowerLine, pressure: real, flow: real): real
  {
    line.pressureCoef * pressure * 0.00001 + flow * line.flowCoef - line.offset
  }

  /**
   * Calculate_StationPower and Calculate_SinglePower, whose bodies are the same:
   * no power without flow; with flow, the station's line, floored to 10 when the
   * line gives a non-positive value.
   */
  function CompressorPower(stationIndex: string, pressure: real, flow: real): (power: real)
    ensures flow <= 0.0 ==> power == 0.0
    ensures flow > 0.0 ==> power > 0.0 && power >= RawPower(PowerLineOf(stationIndex), pressure, flow)
    ensures flow > 0.0 && RawPower(PowerLineOf(stationIndex), pressure, flow) > 0.0 ==>
      power == RawPower(PowerLineOf(stationIndex), pressure, flow)
  {
    if flow <= 0.0 then 0.0
    else
      var raw := RawPower(PowerLineOf(stationIndex), pressure, flow);
      if raw <= 0.0 then 10.0 else raw
  }

  /** A station id other than AS-1, AS-2 and AS-3 is priced like AS-1. */
  lemma UnknownStationUsesFirstLine(stationIndex: string, pressure: real, flow: real)
    requires stationIndex != "AS-1" && stationIndex != "AS-2" && stationIndex != "AS-3"
    ensures CompressorPower(stationIndex, pressure, flow) == CompressorPower("AS-1", pressure, flow)
  {
    assert PowerLineOf(stationIndex) == PowerLineOf("AS-1");
  }

  // ---------------------------------------------------------------------------
  // Matrix conversion and conductance
  // ---------------------------------------------------------------------------

  /** ConvertToDoubleMatrix: a fresh real matrix of the same shape holding the same entries. */
  method ConvertToDoubleMatrix(intArray: array2<int>) returns (doubleMatrix: array2<real>)
    ensures fresh(doubleMatrix)
    ensures doubleMatrix.Length0 == intArray.Length0 && doubleMatrix.Length1 == intArray.Length1
    ensures forall i, j | 0 <= i < intArray.Length0 && 0 <= j < intArray.Length1 ::
      doubleMatrix[i, j] == intArray[i, j] as real
  {
    var rows := intArray.Length0;
    var cols := intArray.Length1;
    doubleMatrix := new real[rows, cols];
    for i := 0 to rows
      invariant forall r, c | 0 <= r < i && 0 <= c < cols :: doubleMatrix[r, c] == intArray[r, c] as real
    {
      for j := 0 to cols
        invariant forall r, c | 0 <= r < i && 0 <= c < cols :: doubleMatrix[r, c] == intArray[r, c] as real
        invariant forall c | 0 <= c < j :: doubleMatrix[i, c] == intArray[i, c] as real
      {
        doubleMatrix[i, j] := intArray[i, j] as real;
      }
    }
  }

  /**
   * The conductance diagonal: with s = R * |AQ| per pipe, g is 0 where s is 0 and
   * 1/s elsewhere, so the division never sees a zero.
   */
  method ConductanceDiagonal(resistance: seq<real>, dampedFlow: seq<real>) returns (g: seq<real>)
    requires |resistance| == |dampedFlow|
    ensures |g| == |resistance|
    ensures forall i | 0 <= i < |g| ::
      (resistance[i] * Abs(dampedFlow[i]) == 0.0 ==> g[i] == 0.0) &&
      (resistance[i] * Abs(dampedFlow[i]) != 0.0 ==> g[i] * (resistance[i] * Abs(dampedFlow[i])) == 1.0)
  {
    var s := seq(|resistance|, i requires 0 <= i < |resistance| => resistance[i] * Abs(dampedFlow[i]));
    var gDiagonal := new real[|s|];
    for i := 0 to |s|
      invariant forall j | 0 <= j < i ::
        (s[j] == 0.0 ==> gDiagonal[j] == 0.0) && (s[j] != 0.0 ==> gDiagonal[j] * s[j] == 1.0)
    {
      gDiagonal[i] := if s[i] == 0.0 then 0.0 else 1.0 / s[i];
    }
    g := gDiagonal[..];
  }

  // ---------------------------------------------------------------------------
  // Fixed-point loop control
  // ---------------------------------------------------------------------------

  /** The largest number of passes the loop allows. */
  const MaxPasses := 25

  /** The convergence threshold on the largest relative change. */
  const Threshold: real := 0.001

  /** Volumetric flow below this magnitude (in m3/min) stops the loop. */
  const NearZeroFlow: real := 0.2

  /**
   * One pipe's volumetric flow Q * 60 / density, as a double, is below 0.2 in
   * magnitude. A zero density (a fluid the parameter object does not know)
   * makes it NaN or an infinity, which never is.
   */
  predicate NearZeroVolume(flow: real, fluidDensity: real)
  {
    var volume := Divide(flow * 60.0, fluidDensity);
    volume.Finite? && Abs(volume.value) < NearZeroFlow
  }

  /**
   * The guard: some pipe's volumetric flow is below 0.2 in magnitude. With a
   * non-zero density that is the exact quotient; with a zero density the guard
   * never fires.
   */
  method AnyNearZeroFlow(q: seq<real>, fluidDensity: real) returns (isZero: bool)
    ensures isZero <==> exists i | 0 <= i < |q| :: NearZeroVolume(q[i], fluidDensity)
    ensures fluidDensity != 0.0 ==> (isZero <==> exists i | 0 <= i < |q| :: Abs(q[i] * 60.0 / fluidDensity) < NearZeroFlow)
    ensures fluidDensity == 0.0 ==> !isZero
  {
    isZero := false;
    for i := 0 to |q|
      invariant isZero <==> exists j | 0 <= j < i :: NearZeroVolume(q[j], fluidDensity)
    {
      var volume := Divide(q[i] * 60.0, fluidDensity);
      if volume.Finite? && Abs(volume.value) < NearZeroFlow {
        isZero := true;
      }
    }
  }

  /**
   * |(next - damped) / damped| for one pipe, with NaN (0/0) counted as 0 as the
   * source's Max selector does; a change from a zero damped flow is infinite.
   */
  function ChangeOf(next: real, damped: real): (e: Double)
    ensures e.Finite? || e.PosInf?
    ensures damped != 0.0 ==> e == Finite(Abs((next - damped) / damped))
    ensures damped == 0.0 ==> (e.PosInf? <==> next != 0.0)
    ensures damped == 0.0 && next == 0.0 ==> e == Finite(0.0)
  {
    match Divide(next - damped, damped)
    case Finite(v) => Finite(Abs(v))
    case NaN => Finite(0.0)
    case _ => PosInf
  }

  function MaxChange(a: Double, b: Double): (m: Double)
    requires a.Finite? || a.PosInf?
    requires b.Finite? || b.PosInf?
    ensures m == a || m == b
  {
    if a.PosInf? || b.PosInf? then PosInf
    else if a.value < b.value then b
    else a
  }

  /** The largest relative change over all pipes (e in the source). */
  function MaxRelativeChange(next: seq<real>, damped: seq<real>): (e: Double)
    requires |next| == |damped| >= 1
    ensures e.Finite? || e.PosInf?
    ensures e.PosInf? <==> exists i | 0 <= i < |next| :: damped[i] == 0.0 && next[i] != 0.0
    ensures e.Finite? ==>
      forall i | 0 <= i < |next| :: ChangeOf(next[i], damped[i]).value <= e.value
    ensures exists i | 0 <= i < |next| :: e == ChangeOf(next[i], damped[i])
  {
    var n := |next|;
    var last := ChangeOf(next[n - 1], damped[n - 1]);
    if n == 1 then last
    else
      var rest := MaxRelativeChange(next[..n - 1], damped[..n - 1]);
      assert forall i | 0 <= i < n - 1 :: next[..n - 1][i] == next[i] && damped[..n - 1][i] == damped[i];
      MaxChange(rest, last)
  }

  /** The loop condition e > threshold for an e that is finite or +Infinity. */
  predicate Exceeds(e: Double, threshold: real)
  {
    e.PosInf? || (e.Finite? && e.value > threshold)
  }

  /**
   * AQ = (AQ + Q) / 2: each damped flow lies between its old value and the new
   * flow, and a flow that no longer changes stays where it is.
   */
  function Damp(damped: seq<real>, next: seq<real>): (r: seq<real>)
    requires |damped| == |next|
    ensures |r| == |damped|
    ensures forall i | 0 <= i < |r| :: Min(damped[i], next[i]) <= r[i] <= Max(damped[i], next[i])
    ensures forall i | 0 <= i < |r| :: damped[i] == next[i] ==> r[i] == next[i]
  {
    seq(|damped|, i requires 0 <= i < |damped| => (damped[i] + next[i]) / 2.0)
  }

  /**
   * The while loop of GasDuctCalc with the physics of one pass abstracted as
   * solvePass(AQ, Q, p): from the damped flows, the flows and the node pressure
   * drops of the pass before (the limit valves read the previous flows), it gives
   * the new flow vector Q and the new node pressure drops p. The loop stops after 25 passes, when some volumetric flow is near
   * zero, or when the largest relative change is at most 0.001.
   */
  method IterateFlows(q0: seq<real>, aq0: seq<real>, p0: seq<real>, fluidDensity: real,
                      solvePass: (seq<real>, seq<real>, seq<real>) -> (seq<real>, seq<real>))
    returns (q: seq<real>, aq: seq<real>, p: seq<real>, previous: seq<real>, count: int, passes: nat, e: Double,
             ghost qBefore: seq<real>, ghost pBefore: seq<real>)
    requires |q0| == |aq0| >= 1
    requires forall a: seq<real>, b: seq<real>, c: seq<real> | |a| == |aq0| :: |solvePass(a, b, c).0| == |aq0|
    ensures |q| == |aq| == |previous| == |q0|
    ensures passes <= MaxPasses
    ensures e.Finite? || e.PosInf?
    ensures passes == 0 ==> q == q0 && aq == aq0 && p == p0
    // why the loop ended: the cap, the near-zero guard, or convergence (exactly one of them)
    ensures (count == MaxPasses + 1 && passes == MaxPasses) ||
            (count == passes + 1 && count <= MaxPasses &&
             exists i | 0 <= i < |q| :: NearZeroVolume(q[i], fluidDensity)) ||
            (count == passes && passes >= 1 && !Exceeds(e, Threshold))
    // after a pass, Q and p are what the pass gave from the AQ, Q and p it started with (the inputs for the
    // first pass), AQ is the damped mean of the AQ it started from and Q, and e their largest change
    ensures passes == 1 ==> previous == aq0 && qBefore == q0 && pBefore == p0
    ensures passes >= 1 ==> (q, p) == solvePass(previous, qBefore, pBefore)
    ensures passes >= 1 ==> aq == Damp(previous, q) && e == MaxRelativeChange(q, previous)
  {
    q, aq, p, previous := q0, aq0, p0, aq0;
    qBefore, pBefore := q0, p0;
    e := Finite(DoubleMax);
    count := 0;
    passes := 0;
    while Exceeds(e, Threshold)
      invariant |q| == |aq| == |previous| == |q0|
      invariant count == passes <= MaxPasses
      invariant e.Finite? || e.PosInf?
      invariant passes == 0 ==> q == q0 && aq == aq0 && p == p0 && e == Finite(DoubleMax)
      invariant passes == 1 ==> previous == aq0 && qBefore == q0 && pBefore == p0
      invariant passes >= 1 ==> (q, p) == solvePass(previous, qBefore, pBefore)
      invariant passes >= 1 ==> aq == Damp(previous, q) && e == MaxRelativeChange(q, previous)
      decreases MaxPasses - passes
    {
      count := count + 1;
      if count > MaxPasses {
        break;
      }
      var isZero := AnyNearZeroFlow(q, fluidDensity);
      if isZero {
        break;
      }
      qBefore, pBefore := q, p;
      var next, nextP := solvePass(aq, q, p).0, solvePass(aq, q, p).1;
      e := MaxRelativeChange(next, aq);
      previous := aq;
      aq := Damp(aq, next);
      q, p := next, nextP;
      passes := passes + 1;
    }
  }

  // ---------------------------------------------------------------------------
  // Feasibility
  // ---------------------------------------------------------------------------

  /** The double comparison x < bound: false for NaN and +Infinity, true for -Infinity. */
  predicate Below(x: Double, bound: real)
  {
    match x
    case Finite(v) => v < bound
    case NegInf => true
    case _ => false
  }

  /**
   * The verdict of GasDuctCalc: no node pressure is NaN, every user found in the
   * node dictionary has at least its warning pressure, and no station's outlet pipe
   * found in the pipe dictionary carries a negative damped flow.
   */
  method CheckFeasibility(dotPressure: seq<Double>, users: seq<User>, stations: seq<Station>,
                          dotNameDict: map<string, int>, pipeNameDict: map<string, int>,
                          dampedFlow: seq<real>)
    returns (isSatisfied: bool)
    requires forall k | k in dotNameDict :: 0 <= dotNameDict[k] < |dotPressure|
    requires forall k | k in pipeNameDict :: 0 <= pipeNameDict[k] < |dampedFlow|
    ensures isSatisfied <==>
      (forall i | 0 <= i < |dotPressure| :: !dotPressure[i].NaN?) &&
      (forall j | 0 <= j < |users| && users[j].index in dotNameDict ::
         !Below(dotPressure[dotNameDict[users[j].index]], users[j].warnPressure)) &&
      (forall j | 0 <= j < |stations| && stations[j].junctionNodeId in pipeNameDict ::
         dampedFlow[pipeNameDict[stations[j].junctionNodeId]] >= 0.0)
  {
    isSatisfied := true;
    for i := 0 to |dotPressure|
      invariant isSatisfied <==> forall k | 0 <= k < i :: !dotPressure[k].NaN?
    {
      if dotPressure[i].IsNaN() {
        isSatisfied := false;
      }
    }
    var usersOk := true;
    var j := 0;
    while j < |users| && usersOk
      invariant 0 <= j <= |users|
      invariant usersOk <==> forall k | 0 <= k < j && users[k].index in dotNameDict ::
        !Below(dotPressure[dotNameDict[users[k].index]], users[k].warnPressure)
    {
      if users[j].index in dotNameDict && Below(dotPressure[dotNameDict[users[j].index]], users[j].warnPressure) {
        usersOk := false;
      }
      j := j + 1;
    }
    var stationsOk := true;
    j := 0;
    while j < |stations| && stationsOk
      invariant 0 <= j <= |stations|
      invariant stationsOk <==> forall k | 0 <= k < j && stations[k].junctionNodeId in pipeNameDict ::
        dampedFlow[pipeNameDict[stations[k].junctionNodeId]] >= 0.0
    {
      if stations[j].junctionNodeId in pipeNameDict && dampedFlow[pipeNameDict[stations[j].junctionNodeId]] < 0.0 {
        stationsOk := false;
      }
      j := j + 1;
    }
    isSatisfied := isSatisfied && usersOk && stationsOk;
  }

  // ---------------------------------------------------------------------------
  // LoadData
  // ---------------------------------------------------------------------------

  /** Atmospheric pressure, the reference of the exergy terms. */
  const Atmosphere: real := 101325.0

  predicate LoadableStation(s: Station)
  {
    |s.compressors| >= 1 && s.compressors[0].maxFlow > 0.0
  }

  /** The dictionaries and the pipes' node pairs point inside the solved vectors. */
  predicate InRange(sol: Solution)
  {
    (forall k | k in sol.dotNameDict :: 0 <= sol.dotNameDict[k] < |sol.dotPressure|) &&
    (forall k | k in sol.pipeNameDict :: 0 <= sol.pipeNameDict[k] < |sol.pipeFlow|) &&
    |sol.pipeJunction| == |sol.pipeFlow| &&
    (forall i | 0 <= i < |sol.pipeJunction| ::
       0 <= sol.pipeJunction[i].0 < |sol.dotPressure| && 0 <= sol.pipeJunction[i].1 < |sol.dotPressure|)
  }

  /** The value read for a node or pipe name, or the previous value when the name is not mapped. */
  function Lookup(name: string, dict: map<string, int>, values: seq<real>, previous: real): real
    requires forall k | k in dict :: 0 <= dict[k] < |values|
  {
    if name in dict then values[dict[name]] else previous
  }

  /** A compressor after the split: its degree, its flow at its own maxFlow and its power. */
  function LoadedCompressor(c: Compressor, degree: real, stationIndex: string, pressure: real): Compressor
  {
    var flow := degree * c.maxFlow;
    c.(currentValveDegree := degree, realTimeFlow := flow,
       realTimePower := CompressorPower(stationIndex, pressure, flow))
  }

  /** The valve degrees of a station's compressors, in order. */
  function Degrees(compressors: seq<Compressor>): (d: seq<real>)
    ensures |d| == |compressors|
  {
    seq(|compressors|, j requires 0 <= j < |compressors| => compressors[j].currentValveDegree)
  }

  /**
   * A station after LoadData: flow from its outlet pipe, pressure from its node,
   * the valve split of that flow over its compressors (all taken to have the first
   * unit's maxFlow and minimum degree), each compressor's degree, flow and power,
   * and the station power at the gross flow (flow plus waste).
   */
  function LoadedStation(s: Station, sol: Solution): Station
    requires LoadableStation(s) && InRange(sol)
  {
    StationAt(s, Lookup(s.junctionNodeId, sol.pipeNameDict, sol.pipeFlow, s.realTimeFlow),
              Lookup(s.index, sol.dotNameDict, sol.dotPressure, s.realTimePressure))
  }

  /** A station loaded with the given outlet flow and pressure. */
  function StationAt(s: Station, flow: real, pressure: real): Station
    requires LoadableStation(s)
  {
    var first := s.compressors[0];
    var split := ValveSplit(|s.compressors|, first.maxFlow, first.minValveDegree, flow);
    s.(realTimeFlow := flow, realTimePressure := pressure,
       openCompressorCount := split.openNum, wastedFlow := split.wasteTotalFlow,
       compressors := LoadedUnits(s.compressors, split.valves, s.index, pressure),
       totalPower := CompressorPower(s.index, pressure, flow + split.wasteTotalFlow))
  }

  /** Each compressor of a station with its degree from the split. */
  function LoadedUnits(compressors: seq<Compressor>, valves: seq<real>, stationIndex: string, pressure: real): (r: seq<Compressor>)
    requires |valves| == |compressors|
    ensures SameUnits(compressors, r)
  {
    seq(|compressors|, j requires 0 <= j < |compressors| =>
          LoadedCompressor(compressors[j], valves[j], stationIndex, pressure))
  }

  /**
   * What a loaded station satisfies: it keeps its identity and units; the units from
   * openCompressorCount on are closed and draw no power (all of them when the split
   * is unsolvable); its power is never negative; and when waste is reported, flow
   * plus waste is exactly what the units' degrees deliver at the first unit's maxFlow.
   */
  lemma LoadedStationFacts(s: Station, sol: Solution)
    requires LoadableStation(s) && InRange(sol)
    ensures var r := LoadedStation(s, sol);
      r.index == s.index && r.junctionNodeId == s.junctionNodeId &&
      r.initialPressure == s.initialPressure && |r.compressors| == |s.compressors|
    ensures var r := LoadedStation(s, sol);
      forall j | 0 <= j < |r.compressors| && (j >= r.openCompressorCount || r.openCompressorCount > |r.compressors|) ::
        r.compressors[j].currentValveDegree == 0.0 && r.compressors[j].realTimeFlow == 0.0 &&
        r.compressors[j].realTimePower == 0.0
    ensures LoadedStation(s, sol).totalPower >= 0.0
    ensures var r := LoadedStation(s, sol);
      r.wastedFlow != 0.0 ==>
        r.openCompressorCount <= |r.compressors| &&
        r.realTimeFlow + r.wastedFlow == Realised(Degrees(r.compressors), s.compressors[0].maxFlow)
  {
    var r := LoadedStation(s, sol);
    var first := s.compressors[0];
    var split := ValveSplit(|s.compressors|, first.maxFlow, first.minValveDegree, r.realTimeFlow);
    ValveSplitCounts(|s.compressors|, first.maxFlow, first.minValveDegree, r.realTimeFlow);
    assert Degrees(r.compressors) == split.valves;
  }

  /** LoadStation's inner loop over the compressors. */
  method LoadCompressors(compressors: seq<Compressor>, valves: seq<real>, stationIndex: string, pressure: real)
    returns (loaded: seq<Compressor>)
    requires |valves| == |compressors|
    ensures loaded == LoadedUnits(compressors, valves, stationIndex, pressure)
  {
    loaded := compressors;
    for j := 0 to |compressors|
      invariant |loaded| == |compressors|
      invariant forall k | 0 <= k < j ::
        loaded[k] == LoadedCompressor(compressors[k], valves[k], stationIndex, pressure)
      invariant forall k | j <= k < |loaded| :: loaded[k] == compressors[k]
    {
      var c := loaded[j];
      var compressorFlow := valves[j] * c.maxFlow;
      loaded := loaded[j := c.(currentValveDegree := valves[j], realTimeFlow := compressorFlow,
                               realTimePower := CompressorPower(stationIndex, pressure, compressorFlow))];
    }
  }

  /** The station part of LoadData's first loop, proved against LoadedStation. */
  method LoadStation(station: Station, sol: Solution) returns (loaded: Station)
    requires LoadableStation(station) && InRange(sol)
    ensures loaded == LoadedStation(station, sol)
  {
    var flow := station.realTimeFlow;
    if station.junctionNodeId in sol.pipeNameDict {
      flow := sol.pipeFlow[sol.pipeNameDict[station.junctionNodeId]];
    }
    var pressure := station.realTimePressure;
    if station.index in sol.dotNameDict {
      pressure := sol.dotPressure[sol.dotNameDict[station.index]];
    }
    var first := station.compressors[0];
    var isSolvable, valves, openNum, realTotalFlow, wastedFlow :=
      CalculateValves(|station.compressors|, first.maxFlow, first.minValveDegree, flow);
    var compressors := LoadCompressors(station.compressors, valves, station.index, pressure);
    var stationGrossFlow := flow + wastedFlow;
    loaded := station.(realTimeFlow := flow, realTimePressure := pressure,
                       openCompressorCount := openNum, wastedFlow := wastedFlow,
                       compressors := compressors,
                       totalPower := CompressorPower(station.index, pressure, stationGrossFlow));
  }

  /** The sum of the stations' total power, first to last. */
  function TotalPower(stations: seq<Station>): real
  {
    if |stations| == 0 then 0.0
    else TotalPower(stations[..|stations| - 1]) + stations[|stations| - 1].totalPower
  }

  /** The sum of non-negative station powers is non-negative. */
  lemma {:induction false} TotalPowerNonNegative(stations: seq<Station>)
    requires forall i | 0 <= i < |stations| :: stations[i].totalPower >= 0.0
    ensures TotalPower(stations) >= 0.0
  {
    if |stations| > 0 {
      TotalPowerNonNegative(stations[..|stations| - 1]);
    }
  }

  /** A user after LoadData: pressure from its node, flow from its pipe. */
  function LoadedUser(u: User, sol: Solution): User
    requires InRange(sol)
  {
    u.(realTimePressure := Lookup(u.index, sol.dotNameDict, sol.dotPressure, u.realTimePressure),
       realTimeFlow := Lookup(u.junctionNodeId, sol.pipeNameDict, sol.pipeFlow, u.realTimeFlow))
  }

  /**
   * A pipe's exergy efficiency, the smaller of inlet and outlet exergy over the
   * larger, with IEEE results for a zero denominator.
   */
  function PipeEfficiency(flow: real, pressureA: real, pressureB: real, ln: real -> real): (eff: Double)
    ensures var eIn := Abs(flow) * ln(pressureA / Atmosphere);
            var eOut := Abs(flow) * ln(pressureB / Atmosphere);
            eff == Divide(Min(eIn, eOut), Max(eIn, eOut))
  {
    var eIn := Abs(flow) * ln(pressureA / Atmosphere);
    var eOut := Abs(flow) * ln(pressureB / Atmosphere);
    if eIn > eOut then Divide(eOut, eIn) else Divide(eIn, eOut)
  }

  /** With both exergies positive the efficiency is a finite ratio in (0, 1]. */
  lemma PipeEfficiencyAtMostOne(flow: real, pressureA: real, pressureB: real, ln: real -> real)
    requires Abs(flow) * ln(pressureA / Atmosphere) > 0.0
    requires Abs(flow) * ln(pressureB / Atmosphere) > 0.0
    ensures PipeEfficiency(flow, pressureA, pressureB, ln).Finite?
    ensures 0.0 < PipeEfficiency(flow, pressureA, pressureB, ln).value <= 1.0
  {
    var eIn := Abs(flow) * ln(pressureA / Atmosphere);
    var eOut := Abs(flow) * ln(pressureB / Atmosphere);
    RatioInUnitInterval(PipeEfficiency(flow, pressureA, pressureB, ln).value, Min(eIn, eOut), Max(eIn, eOut));
  }

  /** The efficiency does not depend on which end of the pipe is A. */
  lemma PipeEfficiencySymmetric(flow: real, pressureA: real, pressureB: real, ln: real -> real)
    ensures PipeEfficiency(flow, pressureA, pressureB, ln) == PipeEfficiency(flow, pressureB, pressureA, ln)
  {
  }

  lemma RatioInUnitInterval(q: real, n: real, d: real)
    requires 0.0 < n <= d && q * d == n
    ensures 0.0 < q <= 1.0
  {
  }

  /** Pipe i after LoadData: its flow, the pressures of its two nodes, their drop and mean, its efficiency. */
  function LoadedPipe(p: Pipe, i: int, sol: Solution, ln: real -> real): Pipe
    requires InRange(sol) && 0 <= i < |sol.pipeFlow|
  {
    var pressureA := sol.dotPressure[sol.pipeJunction[i].0];
    var pressureB := sol.dotPressure[sol.pipeJunction[i].1];
    p.(flow := sol.pipeFlow[i], pressureA := pressureA, pressureB := pressureB,
       dropPressure := Abs(pressureA - pressureB),
       averagePressure := (pressureA + pressureB) / 2.0,
       pipeEfficiency := PipeEfficiency(sol.pipeFlow[i], pressureA, pressureB, ln))
  }

  /** The drop is never negative and the mean lies between the two end pressures. */
  lemma LoadedPipeBounds(p: Pipe, i: int, sol: Solution, ln: real -> real)
    requires InRange(sol) && 0 <= i < |sol.pipeFlow|
    ensures var r := LoadedPipe(p, i, sol, ln);
      r.dropPressure >= 0.0 && r.dropPressure == Max(r.pressureA, r.pressureB) - Min(r.pressureA, r.pressureB) &&
      Min(r.pressureA, r.pressureB) <= r.averagePressure <= Max(r.pressureA, r.pressureB)
  {
  }

  /** Inlet exergy of the stations: flow * ln(p / p_atm), summed first to last. */
  function EnergyIn(stations: seq<Station>, ln: real -> real): real
  {
    if |stations| == 0 then 0.0
    else
      var s := stations[|stations| - 1];
      EnergyIn(stations[..|stations| - 1], ln) + s.realTimeFlow * ln(s.realTimePressure / Atmosphere)
  }

  /** The same with the wasted flow included (the gross input). */
  function GrossEnergyIn(stations: seq<Station>, ln: real -> real): real
  {
    if |stations| == 0 then 0.0
    else
      var s := stations[|stations| - 1];
      GrossEnergyIn(stations[..|stations| - 1], ln) + (s.realTimeFlow + s.wastedFlow) * ln(s.realTimePressure / Atmosphere)
  }

  /** Outlet exergy delivered to the users: |flow| * ln(p / p_atm). */
  function EnergyOut(users: seq<User>, ln: real -> real): real
  {
    if |users| == 0 then 0.0
    else
      var u := users[|users| - 1];
      EnergyOut(users[..|users| - 1], ln) + Abs(u.realTimeFlow) * ln(u.realTimePressure / Atmosphere)
  }

  /** Without waste the gross input equals the net input. */
  lemma {:induction false} NoWasteSameInput(stations: seq<Station>, ln: real -> real)
    requires forall i | 0 <= i < |stations| :: stations[i].wastedFlow == 0.0
    ensures GrossEnergyIn(stations, ln) == EnergyIn(stations, ln)
  {
    if |stations| > 0 {
      NoWasteSameInput(stations[..|stations| - 1], ln);
    }
  }

  /** Every station loaded: each is still the same station of the network and draws no negative power. */
  function LoadedStations(before: seq<Station>, sol: Solution): (r: seq<Station>)
    requires InRange(sol) && forall i | 0 <= i < |before| :: LoadableStation(before[i])
    ensures |r| == |before| && forall i | 0 <= i < |before| :: r[i] == LoadedStation(before[i], sol)
    ensures forall i | 0 <= i < |before| ::
      SameStation(before[i], r[i], sol.dotNameDict, sol.pipeNameDict) && r[i].totalPower >= 0.0
  {
    forall i | 0 <= i < |before|
      ensures LoadedStation(before[i], sol).totalPower >= 0.0
    {
      LoadedStationFacts(before[i], sol);
    }
    seq(|before|, i requires 0 <= i < |before| => LoadedStation(before[i], sol))
  }

  /**
   * Every user loaded: only its readings change, and a user whose names are in
   * the dictionaries reads its node's pressure and its pipe's flow.
   */
  function LoadedUsers(before: seq<User>, sol: Solution): (r: seq<User>)
    requires InRange(sol)
    ensures |r| == |before| && forall i | 0 <= i < |before| :: r[i] == LoadedUser(before[i], sol)
    ensures forall i | 0 <= i < |before| :: SameUser(before[i], r[i], sol.dotNameDict, sol.pipeNameDict)
    ensures forall i | 0 <= i < |before| && before[i].index in sol.dotNameDict ::
      r[i].realTimePressure == sol.dotPressure[sol.dotNameDict[before[i].index]]
    ensures forall i | 0 <= i < |before| && before[i].junctionNodeId in sol.pipeNameDict ::
      r[i].realTimeFlow == sol.pipeFlow[sol.pipeNameDict[before[i].junctionNodeId]]
  {
    seq(|before|, i requires 0 <= i < |before| => LoadedUser(before[i], sol))
  }

  /**
   * Every pipe loaded: the same pipe, carrying the solved flow of its position,
   * with a drop that is never negative and a mean between its end pressures.
   */
  function LoadedPipes(before: seq<Pipe>, sol: Solution, ln: real -> real): (r: seq<Pipe>)
    requires InRange(sol) && |before| == |sol.pipeFlow|
    ensures |r| == |before| && forall i | 0 <= i < |before| :: r[i] == LoadedPipe(before[i], i, sol, ln)
    ensures forall i | 0 <= i < |before| ::
      SamePipe(before[i], r[i]) && r[i].flow == sol.pipeFlow[i] && r[i].dropPressure >= 0.0 &&
      Min(r[i].pressureA, r[i].pressureB) <= r[i].averagePressure <= Max(r[i].pressureA, r[i].pressureB)
  {
    seq(|before|, i requires 0 <= i < |before| => LoadedPipe(before[i], i, sol, ln))
  }

  predicate Loadable(before: Figures, sol: Solution)
  {
    InRange(sol) &&
    (forall i | 0 <= i < |before.stations| :: LoadableStation(before.stations[i])) &&
    |before.pipes| == |sol.pipeFlow|
  }

  /**
   * LoadData's effect in closed form: every station, user and pipe loaded, the
   * total power summed, SystemEfficiency replaced only when the inlet exergy is
   * positive, TotalEfficiency the gross ratio or 0.
   */
  function Load(before: Figures, sol: Solution, ln: real -> real): Figures
    requires Loadable(before, sol)
  {
    var stations := LoadedStations(before.stations, sol);
    var users := LoadedUsers(before.users, sol);
    var pipes := LoadedPipes(before.pipes, sol, ln);
    var eIn := EnergyIn(stations, ln);
    var eOut := EnergyOut(users, ln);
    var eGross := GrossEnergyIn(stations, ln);
    Figures(stations, users, pipes, TotalPower(stations),
            if eIn > 0.0 then eOut / eIn else before.systemEfficiency,
            if eGross > 0.0 then eOut / eGross else 0.0)
  }

  /**
   * The system figures after LoadData: the total power is never negative, and when
   * no station reports waste and the inlet exergy is positive, TotalEfficiency
   * equals SystemEfficiency.
   */
  lemma LoadFigureFacts(before: Figures, sol: Solution, ln: real -> real)
    requires Loadable(before, sol)
    ensures Load(before, sol, ln).totalPower >= 0.0
    ensures var after := Load(before, sol, ln);
      (forall i | 0 <= i < |after.stations| :: after.stations[i].wastedFlow == 0.0) &&
      EnergyIn(after.stations, ln) > 0.0 ==>
        after.totalEfficiency == after.systemEfficiency
  {
    var after := Load(before, sol, ln);
    forall i | 0 <= i < |after.stations|
      ensures after.stations[i].totalPower >= 0.0
    {
      LoadedStationFacts(before.stations[i], sol);
    }
    TotalPowerNonNegative(after.stations);
    if forall i | 0 <= i < |after.stations| :: after.stations[i].wastedFlow == 0.0 {
      NoWasteSameInput(after.stations, ln);
    }
  }

  /** LoadData's station loop: every station loaded, and their power summed. */
  method LoadStations(before: seq<Station>, sol: Solution) returns (stations: seq<Station>, totalPower: real)
    requires InRange(sol)
    requires forall i | 0 <= i < |before| :: LoadableStation(before[i])
    ensures stations == LoadedStations(before, sol)
    ensures totalPower == TotalPower(stations)
  {
    stations := before;
    totalPower := 0.0;
    for i := 0 to |before|
      invariant |stations| == |before|
      invariant forall k | 0 <= k < i :: stations[k] == LoadedStation(before[k], sol)
      invariant forall k | i <= k < |before| :: stations[k] == before[k]
      invariant totalPower == TotalPower(stations[..i])
    {
      var loaded := LoadStation(stations[i], sol);
      stations := stations[i := loaded];
      assert stations[..i + 1][..i] == stations[..i];
      totalPower := totalPower + loaded.totalPower;
    }
    assert stations[..|stations|] == stations;
  }

  /** LoadData's user loop. */
  method LoadUsers(before: seq<User>, sol: Solution) returns (users: seq<User>)
    requires InRange(sol)
    ensures users == LoadedUsers(before, sol)
  {
    users := before;
    for i := 0 to |users|
      invariant |users| == |before|
      invariant forall k | 0 <= k < i :: users[k] == LoadedUser(before[k], sol)
      invariant forall k | i <= k < |users| :: users[k] == before[k]
    {
      users := users[i := LoadedUser(users[i], sol)];
    }
  }

  /** LoadData's pipe loop: each pipe reads its flow and the pressures of its two nodes. */
  method LoadPipes(before: seq<Pipe>, sol: Solution, ln: real -> real) returns (pipes: seq<Pipe>)
    requires InRange(sol) && |before| == |sol.pipeFlow|
    ensures pipes == LoadedPipes(before, sol, ln)
  {
    pipes := before;
    for i := 0 to |pipes|
      invariant |pipes| == |before|
      invariant forall k | 0 <= k < i :: pipes[k] == LoadedPipe(before[k], k, sol, ln)
      invariant forall k | i <= k < |pipes| :: pipes[k] == before[k]
    {
      var indexA := sol.pipeJunction[i].0;
      var indexB := sol.pipeJunction[i].1;
      var pressureA := sol.dotPressure[indexA];
      var pressureB := sol.dotPressure[indexB];
      var p := pipes[i];
      pipes := pipes[i := p.(flow := sol.pipeFlow[i], pressureA := pressureA, pressureB := pressureB,
                             dropPressure := Abs(pressureA - pressureB),
                             averagePressure := (pressureA + pressureB) / 2.0,
                             pipeEfficiency := PipeEfficiency(sol.pipeFlow[i], pressureA, pressureB, ln))];
    }
  }

  /** LoadData's inlet exergy loop. */
  method SumEnergyIn(stations: seq<Station>, ln: real -> real) returns (eInTotal: real)
    ensures eInTotal == EnergyIn(stations, ln)
  {
    eInTotal := 0.0;
    for i := 0 to |stations|
      invariant eInTotal == EnergyIn(stations[..i], ln)
    {
      assert stations[..i + 1][..i] == stations[..i];
      eInTotal := eInTotal + stations[i].realTimeFlow * ln(stations[i].realTimePressure / Atmosphere);
    }
    assert stations[..|stations|] == stations;
  }

  /** LoadData's outlet exergy loop. */
  method SumEnergyOut(users: seq<User>, ln: real -> real) returns (eOutTotal: real)
    ensures eOutTotal == EnergyOut(users, ln)
  {
    eOutTotal := 0.0;
    for i := 0 to |users|
      invariant eOutTotal == EnergyOut(users[..i], ln)
    {
      assert users[..i + 1][..i] == users[..i];
      eOutTotal := eOutTotal + Abs(users[i].realTimeFlow) * ln(users[i].realTimePressure / Atmosphere);
    }
    assert users[..|users|] == users;
  }

  /** LoadData's gross inlet exergy loop. */
  method SumGrossEnergyIn(stations: seq<Station>, ln: real -> real) returns (eInGrossTotal: real)
    ensures eInGrossTotal == GrossEnergyIn(stations, ln)
  {
    eInGrossTotal := 0.0;
    for i := 0 to |stations|
      invariant eInGrossTotal == GrossEnergyIn(stations[..i], ln)
    {
      assert stations[..i + 1][..i] == stations[..i];
      eInGrossTotal := eInGrossTotal +
        (stations[i].realTimeFlow + stations[i].wastedFlow) * ln(stations[i].realTimePressure / Atmosphere);
    }
    assert stations[..|stations|] == stations;
  }

  /** The computation of LoadData on values, proved against Load. */
  method LoadFigures(before: Figures, sol: Solution, ln: real -> real) returns (after: Figures)
    requires Loadable(before, sol)
    ensures after == Load(before, sol, ln)
  {
    var stations, totalPower := LoadStations(before.stations, sol);
    var users := LoadUsers(before.users, sol);
    var pipes := LoadPipes(before.pipes, sol, ln);
    var eInTotal := SumEnergyIn(stations, ln);
    var eOutTotal := SumEnergyOut(users, ln);
    var eInGrossTotal := SumGrossEnergyIn(stations, ln);
    var systemEfficiency := before.systemEfficiency;
    if eInTotal > 0.0 {
      systemEfficiency := eOutTotal / eInTotal;
    }
    var totalEfficiency := 0.0;
    if eInGrossTotal > 0.0 {
      totalEfficiency := eOutTotal / eInGrossTotal;
    }
    after := Figures(stations, users, pipes, totalPower, systemEfficiency, totalEfficiency);
  }

  /** LoadData on the component objects: the solution is read and the figures written as Load says. */
  method LoadData(components: SystemComponents, ln: real -> real)
    requires Loadable(components.Snapshot(), components.systemParameter.SolutionOf())
    modifies components, components.systemParameter`totalPower, components.systemParameter`systemEfficiency,
             components.systemParameter`totalEfficiency
    ensures components.systemParameter.SolutionOf() == old(components.systemParameter.SolutionOf())
    ensures components.Snapshot() == Load(old(components.Snapshot()), components.systemParameter.SolutionOf(), ln)
  {
    var parameter := components.systemParameter;
    var after := LoadFigures(components.Snapshot(), parameter.SolutionOf(), ln);
    components.airCompressionStations, components.userSides, components.compositePipes :=
      after.stations, after.users, after.pipes;
    parameter.totalPower, parameter.systemEfficiency, parameter.totalEfficiency :=
      after.totalPower, after.systemEfficiency, after.totalEfficiency;
  }


  // ---------------------------------------------------------------------------
  // What LoadData depends on
  // ---------------------------------------------------------------------------

  /** The compressors of a station as sized in the file: the same indices, capacities and minimum degrees. */
  predicate SameUnits(a: seq<Compressor>, b: seq<Compressor>)
  {
    |a| == |b| &&
    forall j | 0 <= j < |a| ::
      a[j].index == b[j].index && a[j].maxFlow == b[j].maxFlow && a[j].minValveDegree == b[j].minValveDegree
  }

  /**
   * The same station of the network: the same names, initial pressure and units,
   * and the same readings where its names are not in the dictionaries (LoadData
   * keeps those). Its set pressure and loaded figures may differ.
   */
  predicate SameStation(a: Station, b: Station, dots: map<string, int>, pipes: map<string, int>)
  {
    a.index == b.index && a.junctionNodeId == b.junctionNodeId && a.initialPressure == b.initialPressure &&
    SameUnits(a.compressors, b.compressors) &&
    (a.junctionNodeId !in pipes ==> a.realTimeFlow == b.realTimeFlow) &&
    (a.index !in dots ==> a.realTimePressure == b.realTimePressure)
  }

  /** The same user: the same names, demand and warning pressure, and the same unmapped readings. */
  predicate SameUser(a: User, b: User, dots: map<string, int>, pipes: map<string, int>)
  {
    a.index == b.index && a.junctionNodeId == b.junctionNodeId &&
    a.initialFlow == b.initialFlow && a.warnPressure == b.warnPressure &&
    (a.junctionNodeId !in pipes ==> a.realTimeFlow == b.realTimeFlow) &&
    (a.index !in dots ==> a.realTimePressure == b.realTimePressure)
  }

  /** The same pipe: the same name, ends and flow direction. */
  predicate SamePipe(a: Pipe, b: Pipe)
  {
    a.index == b.index && a.junctionA == b.junctionA && a.junctionB == b.junctionB && a.flowDirection == b.flowDirection
  }

  /** Two states of one network, as seen through the given dictionaries. */
  predicate SameNetwork(a: Figures, b: Figures, dots: map<string, int>, pipes: map<string, int>)
  {
    |a.stations| == |b.stations| && |a.users| == |b.users| && |a.pipes| == |b.pipes| &&
    (forall i | 0 <= i < |a.stations| :: SameStation(a.stations[i], b.stations[i], dots, pipes)) &&
    (forall i | 0 <= i < |a.users| :: SameUser(a.users[i], b.users[i], dots, pipes)) &&
    (forall i | 0 <= i < |a.pipes| :: SamePipe(a.pipes[i], b.pipes[i]))
  }

  lemma SameNetworkTransitive(a: Figures, b: Figures, c: Figures, dots: map<string, int>, pipes: map<string, int>)
    requires SameNetwork(a, b, dots, pipes) && SameNetwork(b, c, dots, pipes)
    ensures SameNetwork(a, c, dots, pipes)
  {
    forall i | 0 <= i < |a.stations|
      ensures SameStation(a.stations[i], c.stations[i], dots, pipes)
    {
      assert SameUnits(a.stations[i].compressors, b.stations[i].compressors);
    }
  }

  lemma LoadedUnitsAgain(compressors: seq<Compressor>, valves: seq<real>, stationIndex: string, pressure: real)
    requires |valves| == |compressors|
    ensures LoadedUnits(LoadedUnits(compressors, valves, stationIndex, pressure), valves, stationIndex, pressure) ==
            LoadedUnits(compressors, valves, stationIndex, pressure)
  {
  }

  lemma LoadedUnitsOfSame(a: seq<Compressor>, b: seq<Compressor>, valves: seq<real>, stationIndex: string, pressure: real)
    requires |valves| == |a| && SameUnits(a, b)
    ensures LoadedUnits(a, valves, stationIndex, pressure) == LoadedUnits(b, valves, stationIndex, pressure)
  {
  }

  lemma StationAtAgain(s: Station, flow: real, pressure: real)
    requires LoadableStation(s)
    ensures LoadableStation(StationAt(s, flow, pressure))
    ensures StationAt(StationAt(s, flow, pressure), flow, pressure) == StationAt(s, flow, pressure)
  {
    var first := s.compressors[0];
    var split := ValveSplit(|s.compressors|, first.maxFlow, first.minValveDegree, flow);
    var r := StationAt(s, flow, pressure);
    assert r.compressors[0].maxFlow == first.maxFlow && r.compressors[0].minValveDegree == first.minValveDegree;
    LoadedUnitsAgain(s.compressors, split.valves, s.index, pressure);
  }

  lemma StationAtOfSame(s: Station, t: Station, flow: real, pressure: real)
    requires LoadableStation(s) && SameUnits(s.compressors, t.compressors)
    requires s.index == t.index && s.junctionNodeId == t.junctionNodeId && s.initialPressure == t.initialPressure
    ensures LoadableStation(t)
    ensures StationAt(t, flow, pressure) == StationAt(s, flow, pressure).(tempPressure := t.tempPressure)
  {
    var first := s.compressors[0];
    var split := ValveSplit(|s.compressors|, first.maxFlow, first.minValveDegree, flow);
    assert t.compressors[0].maxFlow == first.maxFlow && t.compressors[0].minValveDegree == first.minValveDegree;
    LoadedUnitsOfSame(s.compressors, t.compressors, split.valves, s.index, pressure);
  }

  /** Loading a station again from the same solution changes nothing, and it stays loadable. */
  lemma LoadedStationAgain(s: Station, sol: Solution)
    requires LoadableStation(s) && InRange(sol)
    ensures LoadableStation(LoadedStation(s, sol))
    ensures LoadedStation(LoadedStation(s, sol), sol) == LoadedStation(s, sol)
  {
    var flow := Lookup(s.junctionNodeId, sol.pipeNameDict, sol.pipeFlow, s.realTimeFlow);
    var pressure := Lookup(s.index, sol.dotNameDict, sol.dotPressure, s.realTimePressure);
    var r := LoadedStation(s, sol);
    StationAtAgain(s, flow, pressure);
    assert Lookup(r.junctionNodeId, sol.pipeNameDict, sol.pipeFlow, r.realTimeFlow) == flow;
    assert Lookup(r.index, sol.dotNameDict, sol.dotPressure, r.realTimePressure) == pressure;
  }

  /** A station loaded from a solution depends on the network, not on what it held before. */
  lemma LoadedStationOfSame(s: Station, t: Station, sol: Solution)
    requires LoadableStation(s) && InRange(sol) && SameStation(s, t, sol.dotNameDict, sol.pipeNameDict)
    ensures LoadableStation(t)
    ensures LoadedStation(t, sol) == LoadedStation(s, sol).(tempPressure := t.tempPressure)
  {
    var flow := Lookup(s.junctionNodeId, sol.pipeNameDict, sol.pipeFlow, s.realTimeFlow);
    var pressure := Lookup(s.index, sol.dotNameDict, sol.dotPressure, s.realTimePressure);
    assert Lookup(t.junctionNodeId, sol.pipeNameDict, sol.pipeFlow, t.realTimeFlow) == flow;
    assert Lookup(t.index, sol.dotNameDict, sol.dotPressure, t.realTimePressure) == pressure;
    StationAtOfSame(s, t, flow, pressure);
  }

  /** A loaded station is the same station of the network. */
  lemma LoadedStationSame(s: Station, sol: Solution)
    requires LoadableStation(s) && InRange(sol)
    ensures SameStation(s, LoadedStation(s, sol), sol.dotNameDict, sol.pipeNameDict)
  {
  }

  lemma {:induction false} TotalPowerOfSame(a: seq<Station>, b: seq<Station>)
    requires |a| == |b| && forall i | 0 <= i < |a| :: a[i].totalPower == b[i].totalPower
    ensures TotalPower(a) == TotalPower(b)
  {
    if |a| > 0 {
      TotalPowerOfSame(a[..|a| - 1], b[..|b| - 1]);
    }
  }

  lemma {:induction false} GrossEnergyInOfSame(a: seq<Station>, b: seq<Station>, ln: real -> real)
    requires |a| == |b|
    requires forall i | 0 <= i < |a| ::
      a[i].realTimeFlow == b[i].realTimeFlow && a[i].wastedFlow == b[i].wastedFlow &&
      a[i].realTimePressure == b[i].realTimePressure
    ensures GrossEnergyIn(a, ln) == GrossEnergyIn(b, ln)
  {
    if |a| > 0 {
      GrossEnergyInOfSame(a[..|a| - 1], b[..|b| - 1], ln);
    }
  }

  lemma {:induction false} EnergyInOfSame(a: seq<Station>, b: seq<Station>, ln: real -> real)
    requires |a| == |b|
    requires forall i | 0 <= i < |a| :: a[i].realTimeFlow == b[i].realTimeFlow && a[i].realTimePressure == b[i].realTimePressure
    ensures EnergyIn(a, ln) == EnergyIn(b, ln)
  {
    if |a| > 0 {
      EnergyInOfSame(a[..|a| - 1], b[..|b| - 1], ln);
    }
  }

  /** The figures LoadData leaves: every station, user and pipe and the figures derived from them. */
  predicate LoadedFrom(f: Figures, sol: Solution, ln: real -> real)
  {
    Loadable(f, sol) && Load(f, sol, ln) == f
  }

  /**
   * LoadData keeps the network: after it, the components are the same stations,
   * users and pipes as before, seen through the solution's dictionaries.
   */
  lemma LoadKeepsNetwork(before: Figures, sol: Solution, ln: real -> real)
    requires Loadable(before, sol)
    ensures SameNetwork(before, Load(before, sol, ln), sol.dotNameDict, sol.pipeNameDict)
  {
    var after := Load(before, sol, ln);
    forall i | 0 <= i < |before.stations|
      ensures SameStation(before.stations[i], after.stations[i], sol.dotNameDict, sol.pipeNameDict)
    {
      LoadedStationSame(before.stations[i], sol);
    }
  }

  /**
   * LoadData depends only on the network and the solution: from two states of the
   * same network it writes the same users, pipes, total power and TotalEfficiency,
   * and the same stations up to their set pressures.
   */
  lemma LoadOfSameNetwork(a: Figures, b: Figures, sol: Solution, ln: real -> real)
    requires Loadable(a, sol) && SameNetwork(a, b, sol.dotNameDict, sol.pipeNameDict)
    ensures Loadable(b, sol)
    ensures var la := Load(a, sol, ln);
      var lb := Load(b, sol, ln);
      lb.users == la.users && lb.pipes == la.pipes &&
      lb.totalPower == la.totalPower && lb.totalEfficiency == la.totalEfficiency &&
      |lb.stations| == |la.stations| &&
      forall i | 0 <= i < |la.stations| :: lb.stations[i] == la.stations[i].(tempPressure := b.stations[i].tempPressure)
  {
    LoadedStationsOfSame(a.stations, b.stations, sol);
    var sa := LoadedStations(a.stations, sol);
    var sb := LoadedStations(b.stations, sol);
    TotalPowerOfSame(sa, sb);
    GrossEnergyInOfSame(sa, sb, ln);
    LoadedUsersOfSame(a.users, b.users, sol);
    LoadedPipesOfSame(a.pipes, b.pipes, sol, ln);
  }

  /** Every station of one network loaded from a solution, up to its set pressure. */
  lemma LoadedStationsOfSame(a: seq<Station>, b: seq<Station>, sol: Solution)
    requires InRange(sol) && |a| == |b|
    requires forall i | 0 <= i < |a| :: LoadableStation(a[i]) && SameStation(a[i], b[i], sol.dotNameDict, sol.pipeNameDict)
    ensures forall i | 0 <= i < |b| :: LoadableStation(b[i])
    ensures var la := LoadedStations(a, sol);
      var lb := LoadedStations(b, sol);
      |lb| == |la| && forall i | 0 <= i < |la| :: lb[i] == la[i].(tempPressure := b[i].tempPressure)
  {
    forall i | 0 <= i < |a|
      ensures LoadableStation(b[i])
      ensures LoadedStation(b[i], sol) == LoadedStation(a[i], sol).(tempPressure := b[i].tempPressure)
    {
      LoadedStationOfSame(a[i], b[i], sol);
    }
  }

  /** Every user of one network loaded from a solution. */
  lemma LoadedUsersOfSame(a: seq<User>, b: seq<User>, sol: Solution)
    requires InRange(sol) && |a| == |b|
    requires forall i | 0 <= i < |a| :: SameUser(a[i], b[i], sol.dotNameDict, sol.pipeNameDict)
    ensures LoadedUsers(b, sol) == LoadedUsers(a, sol)
  {
  }

  /** Every pipe of one network loaded from a solution. */
  lemma LoadedPipesOfSame(a: seq<Pipe>, b: seq<Pipe>, sol: Solution, ln: real -> real)
    requires InRange(sol) && |a| == |b| == |sol.pipeFlow|
    requires forall i | 0 <= i < |a| :: SamePipe(a[i], b[i])
    ensures LoadedPipes(b, sol, ln) == LoadedPipes(a, sol, ln)
  {
  }

  /**
   * LoadData is idempotent: loading the loaded components again from the same
   * solution changes nothing, so they hold what LoadData derives from it.
   */
  lemma LoadIdempotent(before: Figures, sol: Solution, ln: real -> real)
    requires Loadable(before, sol)
    ensures LoadedFrom(Load(before, sol, ln), sol, ln)
  {
    var after := Load(before, sol, ln);
    forall i | 0 <= i < |before.stations|
      ensures LoadableStation(after.stations[i])
      ensures LoadedStation(after.stations[i], sol) == after.stations[i]
    {
      LoadedStationAgain(before.stations[i], sol);
    }
    var again := Load(after, sol, ln);
    assert again.stations == after.stations;
    assert again.users == after.users;
    assert again.pipes == after.pipes;
  }
}
