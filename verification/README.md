# Compressed-air network: valve split, hydraulic loop control, topology and pressure optimizer

This project is a Dafny model of the computational core of a compressed-air
pipe-network service. The service reads a network (compressor stations, users,
composite pipes, tees, valves, reducers and limit valves), computes the
network's pressures and flows, and searches for station outlet pressures that
lower the total compressor power without starving any user.

The model follows the structure of the three services it covers:

- **Numerics** (`numerics.dfy`) holds the double semantics the source relies
  on. Doubles are exact reals. NaN and the infinities appear as a `Double`
  datatype where a zero divisor can occur. `double.MaxValue` is a constant.
  .NET's `Math.Round` rounds half to even and the `(int)` cast truncates
  toward zero.
- **Components** (`components.dfy`) holds the records the services read and
  write: compressors, stations, users and composite pipes. It also holds the
  `SystemParameter` and `SystemComponents` objects, as classes whose fields
  `LoadData` and the optimizer update.
- **Valves** (`valves.dfy`) holds `CalculateValves`, which splits a station's
  target flow over its identical compressors. It decides:
  - how many units to open;
  - the opening degree of each unit;
  - the flow the opened units deliver;
  - the flow that the minimum opening degree wastes.

  The method is proved against a closed-form `ValveSplit`. The case lemmas
  show what each layout delivers.
- **Calculation** (`calculation.dfy`) holds the rest of `CalculationService`
  apart from the hydraulic physics:
  - the base-pressure transform of the station pressures;
  - the station and compressor power lines;
  - the matrix conversion and the zero-safe conductance diagonal;
  - the control of the fixed-point loop (the 25-pass cap, the near-zero-flow
    guard, the largest relative change with NaN counted as 0, and the damped
    flow update);
  - the feasibility verdict;
  - everything `LoadData` derives from a solved network.

  `LoadData` is proved against a closed-form `Load`. Lemmas show that the
  total power is never negative and that without waste `TotalEfficiency`
  equals `SystemEfficiency`.
- **Topology** (`topology.dfy`) holds the part of `JsonFileService` that does
  not touch JSON:
  - node and pipe indexing;
  - the signed incidence matrix written through `Graph.AddMatrixNum`;
  - moving the station pipes' columns and list entries to the end, by the
    same permutation;
  - rebuilding the pipe dictionary;
  - the user flow updates;
  - the decoding of the parsed records: the unit conversions (kilopascal to
    pascal, millimetres to metres, percent to fraction, Celsius to kelvin),
    the default roughness, and the refusal of records without a number, of
    stations without compressors and of pipes without straight sections.
- **Optimization** (`optimization.dfy`) holds `OptimizationService`, a
  population search over the stations' outlet pressures with greedy
  acceptance. The network solve (`GasDuctCalc` followed by `LoadData`) is an
  oracle from station pressures to an evaluation. `System.Random` is a stream
  of draws in [0, 1) read through a cursor. The model proves that the search
  never returns something worse than the starting pressures, and proves what
  `FindOptimalPressures` leaves in the stations in each of its four outcomes.

Where the documented behaviour and the code differ, the model follows the code:

- The number of units opened is `(int)(target / maxFlow) + 1`: the smallest
  count whose capacity strictly exceeds the target. A target that is an exact
  multiple of `maxFlow` therefore opens one more unit than a ceiling would.
  For example, T = 250, maxFlow = 100 and minimum degree 0.7 give
  `[1.0, 0.75, 0.75]`.
- The search in `CalculateValves` for how many units to run fully open tries
  k = 1, 2, … in turn. The remainder degree strictly falls as k grows, so the
  search accepts at k = 1 or not at all (`Valves.SearchAcceptsOnlyFirst`).
  The closed form is stated with that collapse.
- `Calculate_StationPower` and `Calculate_SinglePower` have the same body, so
  both are modelled by `Calculation.CompressorPower`.
- `MoveElementsToEnd` removes positions in descending order with `RemoveAt`.
  The model scans positions downward and drops the moved ones, which gives
  the same list.

## Model

| member | source | states |
|---|---|---|
| Numerics.Divide | services/Implementations/CalculationService.cs:461-462 | IEEE division: a non-zero divisor gives the exact quotient; 0/0 is NaN; any other zero divisor gives an infinity, never a finite value |
| Numerics.Truncate | services/Implementations/CalculationService.cs:894 | the (int) cast truncates toward zero: the result is within one unit of x, on the side of zero |
| Numerics.RoundHalfEven | services/Implementations/OptimizationService.cs:364-367 | Math.Round: the result is within one half of x, and is even when x lies exactly half-way |
| Numerics.RoundHalfEvenUnique | services/Implementations/OptimizationService.cs:364-367 | those two properties determine Math.Round's result |
| Numerics.RoundHalfEvenOfInteger | services/Implementations/OptimizationService.cs:86 | rounding a whole number changes nothing |
| Valves.Waste | services/Implementations/CalculationService.cs:959-964 | waste is realised minus target, or 0 exactly when their distance is below 0.1; reported waste is at least 0.1 in magnitude |
| Valves.OpenCount | services/Implementations/CalculationService.cs:894-895 | no units for a non-positive target; otherwise at least one, and the smallest count whose capacity strictly exceeds the target |
| Valves.RemainderDegreeDecreasing | services/Implementations/CalculationService.cs:919-951 | below full capacity, the degree left for the sharing units strictly falls as more units run fully open |
| Valves.SearchAcceptsOnlyFirst | services/Implementations/CalculationService.cs:919-951 | some k in 1..n-1 passes the minimum-degree test exactly when k = 1 does |
| Valves.FirstSplitIsExact | services/Implementations/CalculationService.cs:919-949 | one unit fully open and the other n-1 at the remainder degree deliver the target exactly |
| Valves.ValveSplit | services/Implementations/CalculationService.cs:884-968 | the split yields one degree per compressor, and the open count is OpenCount of the target |
| Valves.CalculateValves | services/Implementations/CalculationService.cs:884-968 | the method's five results (solvable, degrees, open count, realised flow, waste) are exactly ValveSplit's |
| Valves.SplitLayout | services/Implementations/CalculationService.cs:900-958 | the degree layout has one entry per compressor; what each case of it delivers is SplitLayoutCases |
| Valves.OpenUnits | services/Implementations/CalculationService.cs:900-958 | the degrees written are the closed-form layout, and the total is the sum of degree * maxFlow |
| Valves.AssignDegrees | services/Implementations/CalculationService.cs:902-952 | the three branches (all at the minimum, a single unit, the split search) write exactly the closed-form layout into the array |
| Valves.SplitSearch | services/Implementations/CalculationService.cs:917-951 | the search loop leaves either one unit fully open and the rest at the k = 1 remainder degree (capped at 1), or all but the last fully open and the last at the minimum; units past openNum stay 0 |
| Valves.SumFlow | services/Implementations/CalculationService.cs:954-958 | the summing loop returns the realised flow of the opened units |
| Valves.SplitLayoutCases | services/Implementations/CalculationService.cs:900-958 | in each case of the layout, what the units deliver: openNum * min * maxFlow when the average is below the minimum; exactly the target for a single unit or an accepted split, whose shared degree lies strictly between the minimum and 1; (openNum - 1 + min) * maxFlow when the last unit is pinned; closed units deliver nothing |
| Valves.ValveSplitCounts | services/Implementations/CalculationService.cs:884-968 | solvable iff openNum <= compressorNum; unsolvable gives all-zero degrees, flow and waste; units past openNum are closed; the realised flow is the sum of degree * maxFlow and the waste follows the 0.1 rule; a realised flow equal to the target means no waste |
| Valves.RealisedAppend | services/Implementations/CalculationService.cs:954-958 | the realised flow of a concatenation is the sum of the parts' flows |
| Valves.RealisedUniform | services/Implementations/CalculationService.cs:907-910 | m units at the same degree c deliver m * c * maxFlow |
| Valves.ClosedTailAddsNothing | services/Implementations/CalculationService.cs:954-958 | closed units past openNum add nothing to the realised flow |
| Calculation.MaxOf | services/Implementations/CalculationService.cs:858 | the LINQ Max is an element of the array and at least every element |
| Calculation.TackleCompressionPress | services/Implementations/CalculationService.cs:853-865 | no stations give (0, []); otherwise the base is the highest station pressure and each relative pressure is the base minus the station pressure, never negative, with at least one zero |
| Calculation.CompressorPower | services/Implementations/CalculationService.cs:970-1041 | no power without flow; with flow, the power is positive, at least the station's line, and equal to the line whenever the line is positive |
| Calculation.UnknownStationUsesFirstLine | services/Implementations/CalculationService.cs:992-995 | a station other than AS-1, AS-2 and AS-3 is priced exactly like AS-1 |
| Calculation.ConvertToDoubleMatrix | services/Implementations/CalculationService.cs:867-882 | a fresh matrix of the same shape holding every entry converted to a real |
| Calculation.ConductanceDiagonal | services/Implementations/CalculationService.cs:152-160 | with s = R * abs(AQ) per pipe, g is 0 where s is 0 and the reciprocal of s elsewhere |
| Calculation.AnyNearZeroFlow | services/Implementations/CalculationService.cs:225-233 | the guard holds iff some pipe's volumetric flow Q * 60 / density, as a double, is below 0.2 in magnitude: with a non-zero density that is the exact quotient, and with a zero density (an unknown fluid) the quotient is NaN or an infinity and the guard never holds |
| Calculation.ChangeOf | services/Implementations/CalculationService.cs:461-462 | the relative change is finite or +Infinity: abs((Q - AQ) / AQ) for non-zero AQ; 0 for 0/0 (NaN counted as 0); +Infinity iff AQ is 0 and Q is not |
| Calculation.MaxRelativeChange | services/Implementations/CalculationService.cs:461-462 | e is +Infinity iff some pipe changes from zero damped flow; otherwise e is at least every pipe's change; e is always some pipe's change |
| Calculation.Damp | services/Implementations/CalculationService.cs:463 | each damped flow lies between the flow it started from and the new flow, and is the new flow when the two agree |
| Calculation.IterateFlows | services/Implementations/CalculationService.cs:211-464 | the loop runs at most 25 passes and stops for exactly one of three reasons: the cap, a near-zero volumetric flow before the pass cap, or a largest relative change at most 0.001; after a pass, Q and p are what the pass gave from the AQ, Q and p it started with (the inputs, for the first pass), AQ is the damped mean of that AQ and Q, and e is their largest change |
| Calculation.CheckFeasibility | services/Implementations/CalculationService.cs:471-521 | feasible iff no node pressure is NaN, every mapped user is at or above its warning pressure, and no mapped station outlet pipe carries a negative damped flow |
| Calculation.LoadedStationFacts | services/Implementations/CalculationService.cs:531-573 | a loaded station keeps its identity and its units; units from the open count on (all units when the split is unsolvable) are closed and draw no power; station power is never negative; reported waste plus flow is exactly what the degrees deliver |
| Calculation.LoadCompressors | services/Implementations/CalculationService.cs:557-563 | each compressor gets its degree, the flow degree * maxFlow and that flow's power |
| Calculation.LoadStation | services/Implementations/CalculationService.cs:533-569 | the station loop body equals the closed-form LoadedStation |
| Calculation.TotalPowerNonNegative | services/Implementations/CalculationService.cs:572-574 | a sum of non-negative station powers is non-negative |
| Calculation.PipeEfficiencyAtMostOne | services/Implementations/CalculationService.cs:681-691 | with both exergies positive, the efficiency is finite and in (0, 1] |
| Calculation.PipeEfficiencySymmetric | services/Implementations/CalculationService.cs:681-691 | the pipe efficiency does not depend on which end is A: it is the smaller exergy over the larger |
| Calculation.LoadedPipeBounds | services/Implementations/CalculationService.cs:675-678 | the pressure drop is the larger end pressure minus the smaller, and the mean lies between the two |
| Calculation.NoWasteSameInput | services/Implementations/CalculationService.cs:713-718 | without waste, the gross inlet exergy equals the net inlet exergy |
| Calculation.LoadedStations | services/Implementations/CalculationService.cs:531-569 | every station is loaded in order, stays the same station of the network, and draws a non-negative power |
| Calculation.LoadedUsers | services/Implementations/CalculationService.cs:577-587 | every user stays the same user; a user whose node is mapped reads that node's pressure, and one whose pipe is mapped reads that pipe's flow |
| Calculation.LoadedPipes | services/Implementations/CalculationService.cs:667-692 | every pipe stays the same pipe, reads its own flow, has a non-negative pressure drop and a mean pressure between its two end pressures |
| Calculation.LoadKeepsNetwork | services/Implementations/CalculationService.cs:526-726 | LoadData keeps the network: the same stations, users and pipes, seen through the solution's dictionaries |
| Calculation.LoadOfSameNetwork | services/Implementations/CalculationService.cs:526-726 | two states of one network loaded from the same solve get the same users, pipes, total power and TotalEfficiency, and stations that differ only in TempPressure |
| Calculation.LoadIdempotent | services/Implementations/CalculationService.cs:526-726 | loading a loaded state again from the same solve changes nothing |
| Calculation.LoadFigureFacts | services/Implementations/CalculationService.cs:526-726 | after LoadData the total power is never negative; with no waste and positive inlet exergy, TotalEfficiency equals SystemEfficiency |
| Calculation.LoadStations | services/Implementations/CalculationService.cs:531-574 | every station is loaded and the total power is their sum |
| Calculation.LoadUsers | services/Implementations/CalculationService.cs:577-587 | each user reads its node's pressure and its pipe's flow when mapped and keeps its value otherwise |
| Calculation.LoadPipes | services/Implementations/CalculationService.cs:667-692 | each pipe reads its flow, its two node pressures, their drop, their mean and its efficiency |
| Calculation.SumEnergyIn | services/Implementations/CalculationService.cs:695-701 | the inlet exergy loop sums flow * ln(p / p_atm) over the stations |
| Calculation.SumEnergyOut | services/Implementations/CalculationService.cs:696-705 | the outlet exergy loop sums abs(flow) * ln(p / p_atm) over the users |
| Calculation.SumGrossEnergyIn | services/Implementations/CalculationService.cs:713-718 | the gross loop sums (flow + waste) * ln(p / p_atm) over the stations |
| Calculation.LoadFigures | services/Implementations/CalculationService.cs:526-726 | LoadData's figures equal the closed-form Load: SystemEfficiency is replaced only for positive inlet exergy; TotalEfficiency is the gross ratio or 0 |
| Calculation.LoadData | services/Implementations/CalculationService.cs:526-726 | the solved state is left as it was, and the components hold Load of the old figures |
| Components.SystemComponents.constructor | models/SystemComponents.cs:9-20 | the component lists start empty and the parameter object is the one given |
| Topology.NameIndexLastOccurrence | services/Implementations/JsonFileService.cs:101-258 | `dict[name] = counter++` maps exactly the names seen, each to the position of its last occurrence |
| Topology.NameIndexOfDistinct | services/Implementations/JsonFileService.cs:262-307 | with distinct names, the name at position i gets index i |
| Topology.IndexNames | services/Implementations/JsonFileService.cs:103-117 | one foreach continues the counter over the next kind's names |
| Topology.IndexNodes | services/Implementations/JsonFileService.cs:101-258 | the node dictionary is the index of tees, valves, reducers, the three limit valves, users and stations, in that order; DotNum is the count |
| Topology.StationsTakeHighestIndices | services/Implementations/JsonFileService.cs:224-258 | with distinct station names, station j gets DotNum - stations + j and every other node gets a lower index |
| Topology.Graph.constructor | services/Implementations/JsonFileService.cs:441 | a zero matrix of nodes by pipes |
| Topology.Graph.AddMatrixNum | services/Implementations/JsonFileService.cs:442-448 | an in-range write sets the entry; nothing else changes, and an out-of-range write changes nothing |
| Topology.IncidenceSigns | services/Implementations/JsonFileService.cs:326-337 | for a pipe between two different nodes, the first node of its junction pair holds -1, the second +1, and every other row 0, in both directions |
| Topology.BuildIncidence | services/Implementations/JsonFileService.cs:317-339 | succeeds iff every pipe end is a known node; column i is then pipe i's incidence column and junction pair i is its ordered node pair |
| Topology.KeptMembers | services/Implementations/JsonFileService.cs:459-469 | the kept columns are exactly the unmoved indices, strictly ascending |
| Topology.ColumnOrderIsPermutation | services/Implementations/JsonFileService.cs:451-480 | for distinct in-range moved indices, the new column order is a permutation of 0..n-1 |
| Topology.MoveColumnsToEnd | services/Implementations/JsonFileService.cs:451-480 | a fresh matrix of the same shape whose columns are the unmoved ones in order, followed by the moved ones in the given order |
| Topology.CopyColumn | services/Implementations/JsonFileService.cs:463-466 | one column of the new matrix is set to one column of the old; every other entry is unchanged |
| Topology.MoveToEnd | services/Implementations/JsonFileService.cs:485-500 | one list after removing the positions in descending order and appending the removed elements is the same permutation of the list |
| Topology.MoveElementsToEnd | services/Implementations/JsonFileService.cs:482-501 | the three parallel lists are reordered by the same permutation as the matrix columns |
| Topology.RebuildPipeNameDict | services/Implementations/JsonFileService.cs:351-356 | the rebuilt dictionary maps exactly the pipe keys, key i to i |
| Topology.PermuteDistinct | services/Implementations/JsonFileService.cs:348-356 | a permutation keeps distinct pipe keys distinct, so the rebuild's Add never sees a repeat |
| Topology.DecodeTopology | services/Implementations/JsonFileService.cs:101-370 | decoding fails iff a pipe end is not a node, a station pipe is not a pipe, or two stations name the same pipe; on success column k, junction pair k, pipe k and dictionary entry k describe the same pipe, the station pipes hold the last columns in station order, and the dictionary maps exactly the pipe names |
| Topology.StationPipeNamesMatch | services/Implementations/JsonFileService.cs:342-344 | the column found for each station's pipe name holds the pipe of that name |
| Topology.ReorderPipes | services/Implementations/JsonFileService.cs:346-356 | the incidence columns, the junction pairs and the pipes move by one permutation, and the names are renumbered in the new order |
| Topology.ReorderedLists | services/Implementations/JsonFileService.cs:348-356 | after the move, junction pair k, pipe k and the name numbered k stay in step, and the station pipes get the last numbers |
| Topology.ReorderedColumns | services/Implementations/JsonFileService.cs:346 | column k of the moved matrix is the incidence column of the k-th reordered pipe |
| Topology.PermutedKeys | services/Implementations/JsonFileService.cs:348-356 | the renumbered names are the same set of names |
| Topology.FirstMatch | services/Implementations/JsonFileService.cs:410 | FirstOrDefault finds the first user with the index, or none iff no user has it |
| Topology.FindUser | services/Implementations/JsonFileService.cs:410 | the linear scan returns FirstMatch |
| Topology.ApplyChange | services/Implementations/JsonFileService.cs:410-419 | only the first matching user gets the new initial flow; everyone else is unchanged |
| Topology.ReadableEntries | services/Implementations/JsonFileService.cs:405-426 | the applied entries are the prefix before the first malformed one, which ends processing |
| Topology.ApplyChangesOnlyFlows | services/Implementations/JsonFileService.cs:405-420 | the updates keep the list length and every user's other fields; a user no entry names keeps its flow |
| Topology.NoChangesNoUpdate | services/Implementations/JsonFileService.cs:392-433 | a missing, unreadable or empty change file leaves every user as it was |
| Topology.ReadUsersFlowChange | services/Implementations/JsonFileService.cs:392-434 | the user list after the call is the readable entries applied in file order |
| Topology.ApplyChangesStep | services/Implementations/JsonFileService.cs:405-420 | one more entry of the change file applies that entry to the users after the entries before it |
| Topology.UpdateUserFlow | services/Implementations/JsonFileService.cs:410-415 | one entry updates the first matching user's initial flow, if there is one |
| Topology.ReadablePrefix | services/Implementations/JsonFileService.cs:405-426 | the update loop stops exactly at the end of the readable entries |
| Topology.DecodeSystem | services/Implementations/JsonFileService.cs:79-80 | the fluid number is kept; the temperature is kept in kelvin, 273.15 above the value read, and is non-negative exactly when the value read is at or above absolute zero |
| Topology.DecodeValve | services/Implementations/JsonFileService.cs:119-135 | a valve without a number is refused; otherwise its identity and type are kept, its measure is 100 times the value read and its diameter a thousandth of it |
| Topology.DecodeReducer | services/Implementations/JsonFileService.cs:138-153 | a reducer without a number is refused; otherwise both diameters are a thousandth of the values read, and their order is kept |
| Topology.DecodeUser | services/Implementations/JsonFileService.cs:207-221 | a user without a number is refused; otherwise its identity, node and initial flow are kept, its warning pressure is 1000 times the kilopascal read, and nothing is solved yet |
| Topology.DecodeCompressor | services/Implementations/JsonFileService.cs:249-254 | the index and maximum flow are kept; the lowest valve degree is the percentage read over 100, in [0, 1] exactly when the percentage is in [0, 100]; nothing runs yet |
| Topology.DecodeStation | services/Implementations/JsonFileService.cs:225-258 | a station without a number or without compressors is refused; otherwise its identity and node are kept, its initial pressure is 1000 times the kilopascal read, its compressors are decoded in order, and nothing is solved yet |
| Topology.DecodedStationLoadable | services/Implementations/JsonFileService.cs:244-254 | a decoded station is one LoadData can price exactly when the first compressor read has a positive maximum flow |
| Topology.DecodedPressuresCompare | services/Implementations/JsonFileService.cs:218-234 | station pressures and warning pressures are read in the same unit and scaled alike, so their comparison survives decoding |
| Topology.DecodeStraight | services/Implementations/JsonFileService.cs:282-290 | a straight section keeps its length, its diameter is a thousandth of the value read, and its roughness is the one read or 0.1 when missing |
| Topology.DecodePipe | services/Implementations/JsonFileService.cs:263-308 | a composite pipe without a number or without straight sections is refused; otherwise its identity, ends and direction are kept, its straight sections are decoded in order, and nothing is solved yet |
| Topology.DecodeAll | services/Implementations/JsonFileService.cs:103-258 | a list of records decodes exactly when every record does, into the records decoded one by one in order |
| Topology.DecodeEach | services/Implementations/JsonFileService.cs:103-258 | the decoding loop yields DecodeAll of the list: every record decoded in order, or a refusal when any record is refused |
| Topology.DecodeAllRefused | services/Implementations/JsonFileService.cs:239-242 | once some record of a list is refused, the whole list is |
| Optimization.ScorePrefersLessPowerMoreEfficiency | services/Implementations/OptimizationService.cs:170-173 | among feasible evaluations, less power and more efficiency never score worse |
| Optimization.RoundAll | services/Implementations/OptimizationService.cs:155-158 | each coordinate becomes a whole number at most one half from it, and an even one on a tie |
| Optimization.SnapToStepFacts | services/Implementations/OptimizationService.cs:364-367 | a snapped value is a whole number of steps, at most half a step from the input |
| Optimization.SnapToStepIdempotent | services/Implementations/OptimizationService.cs:364-367 | snapping twice is snapping once |
| Optimization.ClampedFacts | services/Implementations/OptimizationService.cs:356-360 | a clamped coordinate is on the grid and within half a step of its box |
| Optimization.RandomSource.NextDouble | services/Implementations/OptimizationService.cs:236 | NextDouble returns the next draw, which is in [0, 1), and advances the stream by one |
| Optimization.RandomSource.Next | services/Implementations/OptimizationService.cs:252 | Next(n) is the next draw scaled to a whole number below n, and advances the stream by one |
| Optimization.RandomSource.constructor | services/Implementations/OptimizationService.cs:180 | a new stream of draws in [0, 1), read from its start |
| Optimization.UniformIndex | services/Implementations/OptimizationService.cs:252 | a draw scaled to n lands in 0..n-1 |
| Optimization.Interpolate | services/Implementations/OptimizationService.cs:348 | a draw interpolates inside the box |
| Optimization.NearInitialCoordinateAsWritten | services/Implementations/OptimizationService.cs:330-335 | as written: the coordinate is on the grid and within half a step of station 0's box, whichever station it is for |
| Optimization.NearInitialCoordinate | services/Implementations/OptimizationService.cs:330-335 | corrected: the coordinate is on the grid and within half a step of its own station's box |
| Optimization.RandomCoordinate | services/Implementations/OptimizationService.cs:348-349 | a random coordinate is on the grid and within half a step of its box |
| Optimization.OffsetIsProduct | services/Implementations/OptimizationService.cs:192-205 | count runs of width draws from start end at start + count * width |
| Optimization.SeedsOfAt | services/Implementations/OptimizationService.cs:192-205 | entry k of the seeds is the seed of slot k + 1, read from the draws after the k slots before it |
| Optimization.SeedsInBoxes | services/Implementations/OptimizationService.cs:192-205 | in every random seed (from half the population on), each coordinate lies within half a step of its own station's box |
| Optimization.StallsCountsRun | services/Implementations/OptimizationService.cs:297-305 | the stall count is the length of the trailing run of generations that each fail to improve on the one before by more than 1e-6, and the generation before that run did improve |
| Optimization.CurveStep | services/Implementations/OptimizationService.cs:297-307 | one more generation whose best is no worse keeps the curve descending; the count restarts on an improvement above 1e-6 and otherwise grows by one |
| Optimization.DescendingPairs | services/Implementations/OptimizationService.cs:287-295 | on a descending curve each generation's best is at most the one before |
| Optimization.ContinuedPrefixes | services/Implementations/OptimizationService.cs:315-320 | a run that continued had a stall count below 200 after every generation before the last |
| Optimization.WithPressures | services/Implementations/OptimizationService.cs:121-124 | the stations with the given TempPressure values, each otherwise unchanged |
| Optimization.RetempKeepsNetwork | services/Implementations/OptimizationService.cs:121-124 | setting the station pressures keeps the network |
| Optimization.NearInitialAsWrittenLeavesBox | services/Implementations/OptimizationService.cs:327-338 | as written, the second station's near-initial coordinate can be clamped into the first station's box and fall below its own lower bound |
| Optimization.Optimizer.constructor | services/Implementations/OptimizationService.cs:32-41 | the population size, iteration limit, step and solver are the ones given, and no solve has been made |
| Optimization.Optimizer.SearchSolvesCount | services/Implementations/OptimizationService.cs:192-285 | the search makes populationSize - 1 seeding solves and 2 * populationSize solves per generation |
| Optimization.Optimizer.RoundToStepSize | services/Implementations/OptimizationService.cs:364-367 | the result is on the step grid and within half a step of the value |
| Optimization.Optimizer.InitializeBounds | services/Implementations/OptimizationService.cs:133-150 | each station's box runs from 50 kPa below to 10 kPa above its current pressure, and the base pressures are the current pressures |
| Optimization.Optimizer.ExtractCurrentSolution | services/Implementations/OptimizationService.cs:106-115 | the solution holds the stations' current pressures, in order |
| Optimization.Optimizer.SetTempPressures | services/Implementations/OptimizationService.cs:155-158 | every station gets the given pressure, and nothing else about the stations changes |
| Optimization.Optimizer.SolveAt | services/Implementations/OptimizationService.cs:155-168 | the stations get the given pressures and one solve is made; its vectors are written back, LoadData runs exactly when it is feasible, and the components stay the recorded network |
| Optimization.Optimizer.Reload | services/Implementations/CalculationService.cs:526-726 | LoadData on the recorded network keeps the solve and the station pressures, leaves the components loaded from that solve (a second load would change nothing), and keeps them bound to the network |
| Optimization.Optimizer.FitnessFunction | services/Implementations/OptimizationService.cs:153-174 | the returned value is the score of the position; the stations are left at the rounded coordinates with the solve written back (and loaded when feasible, left as written when not); the components stay the recorded network; exactly one solve is made |
| Optimization.Optimizer.Evaluate | services/Implementations/OptimizationService.cs:153-174 | the fitness as the search reads it: the score of the position, with the stations settled at its rounding and one solve more |
| Optimization.Optimizer.Clamp | services/Implementations/OptimizationService.cs:354-362 | an array no longer than the number of stations: entry i is clamped in place into station i's box and snapped; the same array is returned, each entry within half a step of its box |
| Optimization.Optimizer.GenerateRandomSolution | services/Implementations/OptimizationService.cs:343-352 | coordinate i is draw i interpolated across box i and snapped; the result lies within half a step of the boxes; one draw per station |
| Optimization.Optimizer.GenerateNearInitialSolutionAsWritten | services/Implementations/OptimizationService.cs:327-338 | as written: coordinate i is NearInitialCoordinateAsWritten of draw i, clamped with station 0's bounds; one draw per station |
| Optimization.Optimizer.NearInitialValueAsWritten | services/Implementations/OptimizationService.cs:330-335 | one coordinate as written: NearInitialCoordinateAsWritten of the next draw, through a one-element array clamp; one draw |
| Optimization.Optimizer.GenerateNearInitialSolution | services/Implementations/OptimizationService.cs:327-338 | corrected: coordinate i is base pressure i plus an offset of up to a fifth of box i's width, clamped to box i; the result lies within half a step of the boxes; one draw per station |
| Optimization.Optimizer.SeedCandidate | services/Implementations/OptimizationService.cs:194-203 | seed i is the as-written near-initial solution below half the population and a random one from there on, read from the next draws; a random seed lies within the boxes |
| Optimization.Optimizer.SeedSlot | services/Implementations/OptimizationService.cs:194-204 | one seed and its fitness from one solve |
| Optimization.Optimizer.SeedSlots | services/Implementations/OptimizationService.cs:184-205 | slot 0 is the initial solution with its fitness; the other slots are the seeds read one after another from the draws, each with its own fitness; one solve per seeded slot |
| Optimization.Optimizer.SeedPopulation | services/Implementations/OptimizationService.cs:184-205 | slot 0 is the initial solution with its fitness; slot i is the seed read from the draws after those of the slots before it, near-initial (as written) below half the population and random from there on; every random slot lies within the boxes; one solve per seeded slot |
| Optimization.Optimizer.UpdateGlobalBest | services/Implementations/OptimizationService.cs:208-218 | the best never gets worse and ends at most every slot's fitness; it is either unchanged, or some slot's position with that slot's fitness |
| Optimization.Optimizer.Accept | services/Implementations/OptimizationService.cs:242-247 | a candidate replaces its slot only when strictly fitter; every other slot is unchanged |
| Optimization.Optimizer.SearchMove | services/Implementations/OptimizationService.cs:231-240 | the phase-1 move is SearchMoveOf the draws it reads: per coordinate the draw I, the perturbation and the fraction, the move snapped, then clamped into the boxes; the move lies within the boxes; three draws per coordinate |
| Optimization.Optimizer.SearchStep | services/Implementations/OptimizationService.cs:233-238 | one coordinate of the phase-1 move before the clamp: SearchCoordinate of the draw I in {0, 1}, the perturbation draw and the fraction draw; three draws |
| Optimization.Optimizer.AttackMove | services/Implementations/OptimizationService.cs:257-277 | the phase-2 move is AttackMoveOf the draws it reads: one draw I, one fraction per coordinate, the move snapped, then clamped into the boxes; the move lies within the boxes |
| Optimization.Optimizer.KeptOrImprovedStep | services/Implementations/OptimizationService.cs:242-247 | replacing one slot by a strictly fitter in-box candidate, or keeping it, keeps every slot kept or improved |
| Optimization.Optimizer.KeptOrImprovedTransitive | services/Implementations/OptimizationService.cs:229-285 | kept-or-improved composes across the two phases |
| Optimization.Optimizer.SearchIndividual | services/Implementations/OptimizationService.cs:231-247 | one individual of phase 1: its slot is kept or replaced by a strictly fitter in-box move; one solve |
| Optimization.Optimizer.AttackIndividual | services/Implementations/OptimizationService.cs:257-284 | one individual of phase 2: its slot is kept or replaced by a strictly fitter in-box move; one solve |
| Optimization.Optimizer.SearchPhase | services/Implementations/OptimizationService.cs:229-248 | each slot keeps its position or gets a strictly fitter in-box one; three draws per coordinate; one solve per individual |
| Optimization.Optimizer.PickAttacked | services/Implementations/OptimizationService.cs:251-253 | Ps consumes one draw, and the attacked slot is the next draw scaled to the population |
| Optimization.Optimizer.AttackPhase | services/Implementations/OptimizationService.cs:251-285 | each slot keeps its position or gets a strictly fitter in-box one; the two Ps branches behave alike; one solve per individual |
| Optimization.Optimizer.AttackAll | services/Implementations/OptimizationService.cs:255-285 | every individual moves toward the attacked one and each slot is kept or strictly improved within the boxes; one solve per individual |
| Optimization.Optimizer.Generation | services/Implementations/OptimizationService.cs:226-295 | one generation: the best never gets worse, ends at most every slot's fitness, and changes only to a strictly fitter position; two solves per individual |
| Optimization.Optimizer.Evolve | services/Implementations/OptimizationService.cs:220-321 | the main loop: the best never gets worse; the curve of bests descends; the loop stops early exactly when the stall count reaches 200; two solves per individual per generation |
| Optimization.Optimizer.Seed | services/Implementations/OptimizationService.cs:184-218 | the seeded population with the best of its slots, which is the initial solution unless strictly fitter |
| Optimization.Optimizer.RunOptimization | services/Implementations/OptimizationService.cs:178-324 | the returned best is never worse than the initial solution, and is the initial solution itself unless strictly better; the per-generation best fitnesses never rise; the run ends after maxIterations generations, or earlier exactly when the trailing run of generations without an improvement above 1e-6 reaches 200, and no earlier prefix reached it; one solve per seeded slot and two per individual per generation |
| Optimization.Optimizer.RestoreInitialSolution | services/Implementations/OptimizationService.cs:118-131 | the unrounded starting pressures go back into the stations and one solve is made; its vectors are written back, and LoadData runs on them exactly when that solve is feasible |
| Optimization.Optimizer.SnapAll | services/Implementations/OptimizationService.cs:75-78 | every coordinate moves onto the step grid by at most half a step |
| Optimization.Optimizer.SnapPosition | services/Implementations/OptimizationService.cs:75-78 | the snapping loop produces SnapAll of the position |
| Optimization.Optimizer.Record | services/Implementations/OptimizationService.cs:43-57 | the network and the solved layout at the start are recorded; from then on the fitness is scored against that network and the components are bound to it |
| Optimization.Optimizer.Prepare | services/Implementations/OptimizationService.cs:53-57 | the boxes are set, the initial solution is the stations' current pressures, and its fitness comes from one solve |
| Optimization.Optimizer.Conclude | services/Implementations/OptimizationService.cs:66-101 | no improvement iff the best is the initial solution, with the stations settled at its rounding; otherwise the snapped best is confirmed (Improved) or the starting pressures written back (RolledBack), with the solve count of each |
| Optimization.Optimizer.Confirm | services/Implementations/OptimizationService.cs:75-99 | the snapped best is applied and solved; Improved exactly when that solve is feasible, leaving the stations settled there, and otherwise the starting pressures written back and solved again |
| Optimization.Optimizer.Optimize | services/Implementations/OptimizationService.cs:53-101 | with stations: the outcome and final state of FindOptimalPressures, with the solve counts of each outcome |
| Optimization.Optimizer.FindOptimalPressures | services/Implementations/OptimizationService.cs:43-102 | no stations: nothing is solved or changed. Otherwise the network stays the same one, and: nothing strictly better leaves the stations settled at the rounded starting pressures after 2 + the search's solves; Improved leaves them settled at the rounded snapped best, whose solve is feasible, after 3 + those solves; RolledBack leaves them settled at the starting pressures after 4 + those solves |

## Left out

- The hydraulic physics is not modelled: the friction, resistance, Reynolds-number and fitting formulas (services/Implementations/CalculationService.cs:737-851), and the matrix product, inverse and solve of each pass in `GasDuctCalc`. The fixed-point loop takes one pass as a function parameter. In the optimizer, `GasDuctCalc` is a solver oracle from station pressures to a feasibility verdict, node pressures and pipe flows; the model writes those vectors into the parameter object as the source does, and runs the modelled `LoadData` on them when the solve is feasible.
- JSON reading and writing (the file access, the required-field checks and the output object of `JsonFileService`) are not modelled. The topology receives the names and pipes as already parsed. The change file arrives as a `ChangeFile` value whose entries are readable or malformed.
- `Math.Log` is a function parameter `ln`. Floating-point rounding is not modelled: every double is an exact real. NaN and the infinities are modelled only where a zero divisor can occur (the relative change, the pipe efficiency and the node pressures fed to the feasibility verdict).
- `System.Random` is a supplied stream of draws in [0, 1), so the seed and the generator's algorithm are left out.
- `LoadData` updates tees, reducers, valves and the three kinds of limit valve (services/Implementations/CalculationService.cs:589-664) only for display. These updates are not modelled.
- The fluid properties computed in `SystemParameter` are not modelled. The density reaches the flow loop as a parameter of any value, including the 0 an unknown fluid number leaves. Neither are logging, the fitness curve list (modelled only as a ghost curve of the best fitnesses), `Console.ReadKey` in the fitness function, `DeepClone`, the workers and the message transport.
- Topology.DecodeTopology: the station names and the station pipe names are taken as two lists, where the source reads both from the same station records; the contract holds for any pair, including the ones the source cannot produce. Pipe names are required to be distinct. With a repeated pipe name the source's dictionary holds fewer keys than there are pipes, and its parallel lists fall out of step. This case is not modelled.
- Topology.MoveColumnsToEnd: the moved indices are required to be distinct and in range. The source's copy runs past the last column otherwise. DecodeTopology reports that case as a decoding failure instead.
- Calculation.LoadStation: the first compressor's maxFlow is required to be positive. For a zero maxFlow the source divides by zero and casts an infinity to int; that case is not modelled.
- Valves.CalculateValves: maxFlow is required to be positive, for the same reason.
- Valves.OpenCount: the count is an unbounded integer. The source's `(int)(target / maxFlow) + 1` (services/Implementations/CalculationService.cs:894) overflows a 32-bit int for a target of 2^31 or more units of maxFlow; such targets are far beyond any station and are not modelled.
- Calculation.IterateFlows: at least one pipe is required. With no pipes the source's largest relative change is a `Max` over an empty sequence, which throws.
- Optimization.Optimizer.FitnessFunction: every solve is required to be loadable (each station's first compressor has a positive maxFlow). The source returns double.MaxValue only for an infeasible solve; for a feasible one it always runs `LoadData`, which with a zero first maxFlow prices the station through a division by zero and an int cast of the result (services/Implementations/CalculationService.cs:894). That path is not modelled. `FitnessAt` gives an unloadable solve double.MaxValue only to stay total; that is a convention of the model, and no such solve arises under the requirement.
- Bend sections (with their default radius ratio of 1.5), tees and limit valves are not decoded: they feed only the hydraulic physics and the display updates, which are not modelled.
- Missing required fields and malformed values in the input file are JSON parsing errors and are not modelled; the decoders take records whose fields are present.
- The output file (pressures written back in kilopascal) is JSON output and is not modelled.
- Optimization.Optimizer.constructor: the population size is required to be at least 1 and the step positive. The source indexes slot 0, and divides by the step, which a zero step turns into NaN. A negative step also runs in the source; the model leaves it out because its snapping and half-step bounds are stated for a positive step.
- The solver oracle depends only on the station pressures. In the source it also reads the rest of the network, which the optimizer does not change.
- Optimization.ClampedFacts: states that a clamped value is within half a step of its box, not that it is the grid point nearest the clamped value. That fact is SnapToStepFacts.
- The lists that the source mutates in place (users, stations, pipes and the parallel lists of the decoder) are modelled as sequence values that the methods reassign. Aliasing between list elements is therefore not captured.

## Findings

| source | as written | input that shows it | evidently intended | confidence | as-written member | corrected member |
|---|---|---|---|---|---|---|
| services/Implementations/OptimizationService.cs:335 | `GenerateNearInitialSolution` clamps coordinate i by passing a one-element array to `Clamp`, which therefore uses the bounds of station 0 for every station | two stations at 600 kPa and 800 kPa (boxes [550, 610] kPa and [750, 810] kPa), a draw of 0.5 and a 1 kPa step: the second coordinate comes out at 610 kPa, below its own lower bound of 750 kPa | each coordinate clamped to its own station's box, so every seed lies within half a step of its box | high (not executed) | Optimization.NearInitialCoordinateAsWritten, Optimization.NearInitialAsWrittenLeavesBox, Optimization.Optimizer.GenerateNearInitialSolutionAsWritten | Optimization.NearInitialCoordinate, Optimization.Optimizer.GenerateNearInitialSolution |
