/**
 * The topology part of JsonFileService with the JSON reading left out: node and
 * pipe indexing, the signed incidence matrix written through Graph.AddMatrixNum,
 * moving the station pipes' columns and list entries to the end, rebuilding the
 * pipe dictionary, the user flow updates and the unit conversions of decoding.
 */
module Topology {
  import opened Numerics
  import opened Components
  import opened Calculation

  // ---------------------------------------------------------------------------
  // Node indexing
  // ---------------------------------------------------------------------------

  /** The names of the node-like components, kind by kind, in file order. */
  datatype NodeNames = NodeNames(
    tees: seq<string>,
    valves: seq<string>,
    reducers: seq<string>,
    limitFlowValves: seq<string>,
    limitDropPValves: seq<string>,
    limitPressureValves: seq<string>,
    users: seq<string>,
    stations: seq<string>)

  /** The order in which the decoder hands out node indices; stations come last. */
  function NodeOrder(n: NodeNames): seq<string>
  {
    n.tees + n.valves + n.reducers + n.limitFlowValves + n.limitDropPValves +
    n.limitPressureValves + n.users + n.stations
  }

  /** The dictionary `dict[name] = counter++` builds over a name order. */
  function NameIndex(order: seq<string>): map<string, int>
  {
    if |order| == 0 then map[]
    else NameIndex(order[..|order| - 1])[order[|order| - 1] := |order| - 1]
  }

  /**
   * Every name in the order is a key, and it maps to the position of its last
   * occurrence; no other key is present.
   */
  lemma {:induction false} NameIndexLastOccurrence(order: seq<string>)
    ensures forall k :: k in NameIndex(order) <==> k in order
    ensures forall k | k in NameIndex(order) ::
      0 <= NameIndex(order)[k] < |order| && order[NameIndex(order)[k]] == k &&
      forall j | NameIndex(order)[k] < j < |order| :: order[j] != k
  {
    if |order| > 0 {
      var front := order[..|order| - 1];
      NameIndexLastOccurrence(front);
      assert order == front + [order[|order| - 1]];
    }
  }

  /** Every index is a position of the order. */
  lemma NameIndexRange(order: seq<string>)
    ensures forall k | k in NameIndex(order) :: 0 <= NameIndex(order)[k] < |order|
  {
    NameIndexLastOccurrence(order);
  }

  /** With distinct names, position i gets index i. */
  lemma NameIndexOfDistinct(order: seq<string>)
    requires forall i, j | 0 <= i < j < |order| :: order[i] != order[j]
    ensures forall i | 0 <= i < |order| :: order[i] in NameIndex(order) && NameIndex(order)[order[i]] == i
  {
    NameIndexLastOccurrence(order);
    forall i | 0 <= i < |order|
      ensures order[i] in NameIndex(order) && NameIndex(order)[order[i]] == i
    {
      var m := NameIndex(order)[order[i]];
      assert order[m] == order[i];
    }
  }

  /** One foreach of the decoder: continue the counter over the next kind's names. */
  method IndexNames(dict: map<string, int>, counter: int, names: seq<string>, ghost prefix: seq<string>)
    returns (dict': map<string, int>, counter': int)
    requires dict == NameIndex(prefix) && counter == |prefix|
    ensures dict' == NameIndex(prefix + names) && counter' == |prefix + names|
  {
    dict', counter' := dict, counter;
    assert prefix + names[..0] == prefix;
    for i := 0 to |names|
      invariant dict' == NameIndex(prefix + names[..i]) && counter' == |prefix| + i
    {
      assert (prefix + names[..i + 1])[..|prefix| + i] == prefix + names[..i];
      dict' := dict'[names[i] := counter'];
      counter' := counter' + 1;
    }
    assert names[..|names|] == names;
  }

  /**
   * The node indexing of DecodeStructure: one counter runs over tees, valves,
   * reducers, the three limit valves, users and stations, and DotNum is its final value.
   */
  method IndexNodes(n: NodeNames) returns (dotNameDict: map<string, int>, dotNum: int)
    ensures dotNameDict == NameIndex(NodeOrder(n)) && dotNum == |NodeOrder(n)|
  {
    dotNameDict, dotNum := map[], 0;
    dotNameDict, dotNum := IndexNames(dotNameDict, dotNum, n.tees, []);
    assert [] + n.tees == n.tees;
    dotNameDict, dotNum := IndexNames(dotNameDict, dotNum, n.valves, n.tees);
    dotNameDict, dotNum := IndexNames(dotNameDict, dotNum, n.reducers, n.tees + n.valves);
    dotNameDict, dotNum := IndexNames(dotNameDict, dotNum, n.limitFlowValves, n.tees + n.valves + n.reducers);
    dotNameDict, dotNum := IndexNames(dotNameDict, dotNum, n.limitDropPValves,
                                      n.tees + n.valves + n.reducers + n.limitFlowValves);
    dotNameDict, dotNum := IndexNames(dotNameDict, dotNum, n.limitPressureValves,
                                      n.tees + n.valves + n.reducers + n.limitFlowValves + n.limitDropPValves);
    dotNameDict, dotNum := IndexNames(dotNameDict, dotNum, n.users,
                                      n.tees + n.valves + n.reducers + n.limitFlowValves + n.limitDropPValves +
                                      n.limitPressureValves);
    dotNameDict, dotNum := IndexNames(dotNameDict, dotNum, n.stations,
                                      n.tees + n.valves + n.reducers + n.limitFlowValves + n.limitDropPValves +
                                      n.limitPressureValves + n.users);
  }

  /**
   * Stations take the highest node indices: with distinct station names, station j
   * gets DotNum - |stations| + j, and every other name gets a smaller index.
   */
  lemma StationsTakeHighestIndices(n: NodeNames)
    requires forall i, j | 0 <= i < j < |n.stations| :: n.stations[i] != n.stations[j]
    ensures var order := NodeOrder(n);
      forall j | 0 <= j < |n.stations| ::
        n.stations[j] in NameIndex(order) && NameIndex(order)[n.stations[j]] == |order| - |n.stations| + j
    ensures var order := NodeOrder(n);
      forall k | k in NameIndex(order) && k !in n.stations :: NameIndex(order)[k] < |order| - |n.stations|
  {
    var order := NodeOrder(n);
    var front := n.tees + n.valves + n.reducers + n.limitFlowValves + n.limitDropPValves +
                 n.limitPressureValves + n.users;
    assert order == front + n.stations;
    NameIndexLastOccurrence(order);
    assert forall i | |front| <= i < |order| :: order[i] == n.stations[i - |front|];
    forall j | 0 <= j < |n.stations|
      ensures n.stations[j] in NameIndex(order) && NameIndex(order)[n.stations[j]] == |front| + j
    {
      assert order[|front| + j] == n.stations[j];
      var m := NameIndex(order)[n.stations[j]];
      assert |front| + j <= m;
      assert n.stations[m - |front|] == n.stations[j];
    }
  }

  // ---------------------------------------------------------------------------
  // Incidence matrix
  // ---------------------------------------------------------------------------

  /** The private Graph helper: a matrix of nodes by pipes with a guarded write. */
  class Graph {
    var matrix: array2<int>

    /** A zero matrix of the given shape. */
    constructor (rowCount: nat, colCount: nat)
      ensures fresh(matrix)
      ensures matrix.Length0 == rowCount && matrix.Length1 == colCount
      ensures forall r, c | 0 <= r < rowCount && 0 <= c < colCount :: matrix[r, c] == 0
    {
      matrix := new int[rowCount, colCount]((_, _) => 0);
    }

    /** Writes the weight only when row and column are in range; otherwise nothing changes. */
    method AddMatrixNum(row: int, col: int, weight: int)
      modifies matrix
      ensures 0 <= row < matrix.Length0 && 0 <= col < matrix.Length1 ==> matrix[row, col] == weight
      ensures forall r, c | 0 <= r < matrix.Length0 && 0 <= c < matrix.Length1 && (r != row || c != col) ::
        matrix[r, c] == old(matrix[r, c])
    {
      if 0 <= row < matrix.Length0 && 0 <= col < matrix.Length1 {
        matrix[row, col] := weight;
      }
    }
  }

  /** Both endpoints of every pipe are known node names. */
  predicate EndpointsKnown(pipes: seq<Pipe>, dotNameDict: map<string, int>)
  {
    forall i | 0 <= i < |pipes| :: pipes[i].junctionA in dotNameDict && pipes[i].junctionB in dotNameDict
  }

  /** The junction pair of a pipe: [A, B] for FlowDirection 1, [B, A] otherwise. */
  function JunctionPair(p: Pipe, dotNameDict: map<string, int>): (int, int)
    requires p.junctionA in dotNameDict && p.junctionB in dotNameDict
  {
    var a := dotNameDict[p.junctionA];
    var b := dotNameDict[p.junctionB];
    if p.flowDirection == 1 then (a, b) else (b, a)
  }

  /**
   * The entry of row r in a pipe's column: the A row is written first and the B
   * row second (so B wins when both are the same node): -1/+1 for FlowDirection 1,
   * +1/-1 otherwise, 0 in every other row.
   */
  function IncidenceEntry(p: Pipe, dotNameDict: map<string, int>, r: int): int
    requires p.junctionA in dotNameDict && p.junctionB in dotNameDict
  {
    var a := dotNameDict[p.junctionA];
    var b := dotNameDict[p.junctionB];
    if r == b then (if p.flowDirection == 1 then 1 else -1)
    else if r == a then (if p.flowDirection == 1 then -1 else 1)
    else 0
  }

  /**
   * For a pipe between two different nodes, the first node of its junction pair
   * holds -1, the second +1, and every other row 0, whichever the direction.
   */
  lemma IncidenceSigns(p: Pipe, dotNameDict: map<string, int>)
    requires p.junctionA in dotNameDict && p.junctionB in dotNameDict
    requires dotNameDict[p.junctionA] != dotNameDict[p.junctionB]
    ensures IncidenceEntry(p, dotNameDict, JunctionPair(p, dotNameDict).0) == -1
    ensures IncidenceEntry(p, dotNameDict, JunctionPair(p, dotNameDict).1) == 1
    ensures forall r | r != JunctionPair(p, dotNameDict).0 && r != JunctionPair(p, dotNameDict).1 ::
      IncidenceEntry(p, dotNameDict, r) == 0
  {
  }

  /**
   * The incidence loop of DecodeStructure: column i is written for pipe i through
   * AddMatrixNum and its junction pair recorded. A pipe whose endpoint is not a
   * known node name aborts the decoding (the dictionary lookup throws).
   */
  method BuildIncidence(pipes: seq<Pipe>, dotNameDict: map<string, int>, dotNum: nat)
    returns (found: bool, graph: Graph, pipeJunction: seq<(int, int)>)
    requires forall k | k in dotNameDict :: 0 <= dotNameDict[k] < dotNum
    ensures fresh(graph) && fresh(graph.matrix)
    ensures graph.matrix.Length0 == dotNum && graph.matrix.Length1 == |pipes|
    ensures found <==> EndpointsKnown(pipes, dotNameDict)
    ensures found ==> (|pipeJunction| == |pipes| &&
      forall i | 0 <= i < |pipes| :: pipeJunction[i] == JunctionPair(pipes[i], dotNameDict))
    ensures found ==> forall r, c | 0 <= r < dotNum && 0 <= c < |pipes| ::
      graph.matrix[r, c] == IncidenceEntry(pipes[c], dotNameDict, r)
  {
    graph := new Graph(dotNum, |pipes|);
    pipeJunction := [];
    for i := 0 to |pipes|
      invariant fresh(graph.matrix)
      invariant graph.matrix.Length0 == dotNum && graph.matrix.Length1 == |pipes|
      invariant EndpointsKnown(pipes[..i], dotNameDict)
      invariant |pipeJunction| == i
      invariant forall c | 0 <= c < i :: pipeJunction[c] == JunctionPair(pipes[c], dotNameDict)
      invariant forall r, c | 0 <= r < dotNum && 0 <= c < i ::
        graph.matrix[r, c] == IncidenceEntry(pipes[c], dotNameDict, r)
      invariant forall r, c | 0 <= r < dotNum && i <= c < |pipes| :: graph.matrix[r, c] == 0
    {
      var pipe := pipes[i];
      if pipe.junctionA !in dotNameDict || pipe.junctionB !in dotNameDict {
        assert !EndpointsKnown(pipes, dotNameDict) by {
          assert pipes[i] == pipe;
        }
        return false, graph, pipeJunction;
      }
      var indexA := dotNameDict[pipe.junctionA];
      var indexB := dotNameDict[pipe.junctionB];
      if pipe.flowDirection == 1 {
        graph.AddMatrixNum(indexA, i, -1);
        graph.AddMatrixNum(indexB, i, 1);
        pipeJunction := pipeJunction + [(indexA, indexB)];
      } else {
        graph.AddMatrixNum(indexA, i, 1);
        graph.AddMatrixNum(indexB, i, -1);
        pipeJunction := pipeJunction + [(indexB, indexA)];
      }
      assert pipes[..i + 1] == pipes[..i] + [pipe];
    }
    assert pipes[..|pipes|] == pipes;
    found := true;
  }

  // ---------------------------------------------------------------------------
  // Moving the station pipes to the end
  // ---------------------------------------------------------------------------

  /** In-range indices with no repeats. */
  predicate DistinctIndices(moved: seq<int>, n: int)
  {
    (forall i | 0 <= i < |moved| :: 0 <= moved[i] < n) &&
    (forall i, j | 0 <= i < j < |moved| :: moved[i] != moved[j])
  }

  /** The indices in [lo, hi) that are not moved, in ascending order. */
  function Kept(lo: int, hi: int, moved: seq<int>): (r: seq<int>)
    ensures forall i | 0 <= i < |r| :: lo <= r[i] < hi
    decreases hi - lo
  {
    if lo >= hi then [] else (if lo in moved then [] else [lo]) + Kept(lo + 1, hi, moved)
  }

  /** The new position-to-old-position map: the kept columns in order, then the moved ones as given. */
  function ColumnOrder(n: int, moved: seq<int>): (r: seq<int>)
    ensures |r| == |Kept(0, n, moved)| + |moved|
    ensures (forall i | 0 <= i < |moved| :: 0 <= moved[i] < n) ==> forall i | 0 <= i < |r| :: 0 <= r[i] < n
  {
    Kept(0, n, moved) + moved
  }

  /** Reading a sequence through an index map. */
  function Permute<T>(s: seq<T>, order: seq<int>): (r: seq<T>)
    requires forall i | 0 <= i < |order| :: 0 <= order[i] < |s|
    ensures |r| == |order| && forall i | 0 <= i < |order| :: r[i] == s[order[i]]
  {
    seq(|order|, i requires 0 <= i < |order| => s[order[i]])
  }

  /** Kept grows at its upper end, as the left-to-right copy loop sees it. */
  lemma {:induction false} KeptSnoc(lo: int, hi: int, moved: seq<int>)
    requires lo <= hi
    ensures Kept(lo, hi + 1, moved) == Kept(lo, hi, moved) + (if hi in moved then [] else [hi])
    decreases hi - lo
  {
    if lo < hi {
      KeptSnoc(lo + 1, hi, moved);
    }
  }

  /** Kept holds exactly the unmoved indices of [lo, hi), strictly ascending. */
  lemma {:induction false} KeptMembers(lo: int, hi: int, moved: seq<int>)
    ensures forall x :: x in Kept(lo, hi, moved) <==> lo <= x < hi && x !in moved
    ensures forall i, j | 0 <= i < j < |Kept(lo, hi, moved)| :: Kept(lo, hi, moved)[i] < Kept(lo, hi, moved)[j]
    ensures forall i | 0 <= i < |Kept(lo, hi, moved)| :: lo <= Kept(lo, hi, moved)[i]
    decreases hi - lo
  {
    if lo < hi {
      KeptMembers(lo + 1, hi, moved);
    }
  }

  /** How many entries of `moved` lie in [lo, hi). */
  function CountIn(moved: seq<int>, lo: int, hi: int): nat
  {
    if |moved| == 0 then 0
    else (if lo <= moved[0] < hi then 1 else 0) + CountIn(moved[1..], lo, hi)
  }

  lemma {:induction false} CountInSplit(moved: seq<int>, lo: int, hi: int)
    requires lo < hi
    requires forall i, j | 0 <= i < j < |moved| :: moved[i] != moved[j]
    ensures CountIn(moved, lo, hi) == (if lo in moved then 1 else 0) + CountIn(moved, lo + 1, hi)
  {
    if |moved| > 0 {
      CountInSplit(moved[1..], lo, hi);
      assert moved == [moved[0]] + moved[1..];
      if moved[0] == lo {
        assert lo !in moved[1..] by {
          forall j | 0 <= j < |moved[1..]|
            ensures moved[1..][j] != lo
          {
            assert moved[1..][j] == moved[j + 1];
          }
        }
      }
    }
  }

  lemma {:induction false} CountInAll(moved: seq<int>, n: int)
    requires forall i | 0 <= i < |moved| :: 0 <= moved[i] < n
    ensures CountIn(moved, 0, n) == |moved|
  {
    if |moved| > 0 {
      CountInAll(moved[1..], n);
    }
  }

  lemma {:induction false} KeptLengthFrom(lo: int, hi: int, moved: seq<int>)
    requires lo <= hi
    requires forall i, j | 0 <= i < j < |moved| :: moved[i] != moved[j]
    ensures |Kept(lo, hi, moved)| + CountIn(moved, lo, hi) == hi - lo
    decreases hi - lo
  {
    if lo < hi {
      KeptLengthFrom(lo + 1, hi, moved);
      CountInSplit(moved, lo, hi);
    } else {
      CountInEmpty(moved, lo, hi);
    }
  }

  lemma {:induction false} CountInEmpty(moved: seq<int>, lo: int, hi: int)
    requires hi <= lo
    ensures CountIn(moved, lo, hi) == 0
  {
    if |moved| > 0 {
      CountInEmpty(moved[1..], lo, hi);
    }
  }

  /**
   * For distinct in-range indices, ColumnOrder is a permutation of 0..n-1: n
   * entries, all in range, no repeats, every index present.
   */
  lemma ColumnOrderIsPermutation(n: nat, moved: seq<int>)
    requires DistinctIndices(moved, n)
    ensures |ColumnOrder(n, moved)| == n
    ensures forall i | 0 <= i < n :: 0 <= ColumnOrder(n, moved)[i] < n
    ensures forall i, j | 0 <= i < j < n :: ColumnOrder(n, moved)[i] != ColumnOrder(n, moved)[j]
    ensures forall c | 0 <= c < n :: c in ColumnOrder(n, moved)
  {
    var kept := Kept(0, n, moved);
    var order := ColumnOrder(n, moved);
    KeptLengthFrom(0, n, moved);
    CountInAll(moved, n);
    KeptMembers(0, n, moved);
    forall i, j | 0 <= i < j < n
      ensures order[i] != order[j]
    {
      if j < |kept| {
        assert order[i] == kept[i] && order[j] == kept[j];
      } else if i < |kept| {
        assert order[i] == kept[i] && kept[i] !in moved;
        assert order[j] == moved[j - |kept|];
      } else {
        assert order[i] == moved[i - |kept|] && order[j] == moved[j - |kept|];
      }
    }
    forall c | 0 <= c < n
      ensures c in order
    {
      if c in moved {
        var t :| 0 <= t < |moved| && moved[t] == c;
        assert order[|kept| + t] == c;
      } else {
        assert c in kept;
      }
    }
  }

  /**
   * MoveColumnsToEnd: a new matrix of the same shape whose columns are the
   * unmoved columns in their original order followed by the moved ones in the
   * given order. Repeated or out-of-range indices make the source's copy run
   * past the last column, so they are excluded here.
   */
  method MoveColumnsToEnd(matrix: array2<int>, columnsToMove: seq<int>) returns (newArray: array2<int>)
    requires DistinctIndices(columnsToMove, matrix.Length1)
    ensures fresh(newArray)
    ensures newArray.Length0 == matrix.Length0 && newArray.Length1 == matrix.Length1
    ensures |ColumnOrder(matrix.Length1, columnsToMove)| == matrix.Length1 &&
      forall r, c | 0 <= r < matrix.Length0 && 0 <= c < matrix.Length1 ::
      newArray[r, c] == matrix[r, ColumnOrder(matrix.Length1, columnsToMove)[c]]
  {
    var rowCount := matrix.Length0;
    var colCount := matrix.Length1;
    ghost var order := ColumnOrder(colCount, columnsToMove);
    ColumnOrderIsPermutation(colCount, columnsToMove);
    KeptLengthFrom(0, colCount, columnsToMove);
    CountInAll(columnsToMove, colCount);
    newArray := new int[rowCount, colCount];
    var newColIdx := 0;
    for col := 0 to colCount
      invariant newColIdx == |Kept(0, col, columnsToMove)| <= col
      invariant forall r, c | 0 <= r < rowCount && 0 <= c < newColIdx ::
        newArray[r, c] == matrix[r, Kept(0, col, columnsToMove)[c]]
    {
      KeptSnoc(0, col, columnsToMove);
      if col !in columnsToMove {
        CopyColumn(matrix, newArray, col, newColIdx);
        newColIdx := newColIdx + 1;
      }
    }
    for t := 0 to |columnsToMove|
      invariant newColIdx == |Kept(0, colCount, columnsToMove)| + t
      invariant forall r, c | 0 <= r < rowCount && 0 <= c < newColIdx ::
        newArray[r, c] == matrix[r, order[c]]
    {
      CopyColumn(matrix, newArray, columnsToMove[t], newColIdx);
      newColIdx := newColIdx + 1;
    }
  }

  /** Copies one column of a matrix into a column of another of the same height. */
  method CopyColumn(source: array2<int>, target: array2<int>, from: int, to: int)
    requires source != target && source.Length0 == target.Length0
    requires 0 <= from < source.Length1 && 0 <= to < target.Length1
    modifies target
    ensures forall r | 0 <= r < target.Length0 :: target[r, to] == source[r, from]
    ensures forall r, c | 0 <= r < target.Length0 && 0 <= c < target.Length1 && c != to ::
      target[r, c] == old(target[r, c])
  {
    for row := 0 to source.Length0
      invariant forall r | 0 <= r < row :: target[r, to] == source[r, from]
      invariant forall r, c | 0 <= r < target.Length0 && 0 <= c < target.Length1 && c != to ::
        target[r, c] == old(target[r, c])
    {
      target[row, to] := source[row, from];
    }
  }

  /**
   * One list of MoveElementsToEnd: the elements at the positions are taken out
   * (from the highest position down, as the descending RemoveAt loop does) and
   * appended in the order the positions are given.
   */
  method MoveToEnd<T>(list: seq<T>, positions: seq<int>) returns (result: seq<T>)
    requires DistinctIndices(positions, |list|)
    ensures result == Permute(list, ColumnOrder(|list|, positions))
  {
    var n := |list|;
    var elementsToMove := Permute(list, positions);
    result := list;
    var k := n;
    assert list[..n] == list;
    while k > 0
      invariant 0 <= k <= n
      invariant result == list[..k] + Permute(list, Kept(k, n, positions))
    {
      if k - 1 in positions {
        result := result[..k - 1] + result[k..];
      }
      RemovalStep(list, positions, k);
      k := k - 1;
    }
    result := result + elementsToMove;
    PermuteAppend(list, Kept(0, n, positions), positions);
  }

  /** One step of the downward scan: position k-1 is dropped when it is moved and kept otherwise. */
  lemma RemovalStep<T>(list: seq<T>, positions: seq<int>, k: int)
    requires 0 < k <= |list|
    ensures var before := list[..k] + Permute(list, Kept(k, |list|, positions));
      var after := list[..k - 1] + Permute(list, Kept(k - 1, |list|, positions));
      if k - 1 in positions then before[..k - 1] + before[k..] == after else before == after
  {
    if k - 1 in positions {
      RemovalDrops(list, positions, k);
    } else {
      RemovalKeeps(list, positions, k);
    }
  }

  lemma RemovalDrops<T>(list: seq<T>, positions: seq<int>, k: int)
    requires 0 < k <= |list| && k - 1 in positions
    ensures var before := list[..k] + Permute(list, Kept(k, |list|, positions));
      before[..k - 1] + before[k..] == list[..k - 1] + Permute(list, Kept(k - 1, |list|, positions))
  {
    var kept := Kept(k, |list|, positions);
    var tail := Permute(list, kept);
    var before := list[..k] + tail;
    assert Kept(k - 1, |list|, positions) == kept;
    assert before[..k - 1] == list[..k - 1];
    assert before[k..] == tail;
  }

  lemma RemovalKeeps<T>(list: seq<T>, positions: seq<int>, k: int)
    requires 0 < k <= |list| && k - 1 !in positions
    ensures list[..k] + Permute(list, Kept(k, |list|, positions)) ==
      list[..k - 1] + Permute(list, Kept(k - 1, |list|, positions))
  {
    var kept := Kept(k, |list|, positions);
    assert Kept(k - 1, |list|, positions) == [k - 1] + kept;
    PermuteAppend(list, [k - 1], kept);
    assert list[..k] == list[..k - 1] + [list[k - 1]];
  }

  lemma PermuteAppend<T>(s: seq<T>, a: seq<int>, b: seq<int>)
    requires forall i | 0 <= i < |a| :: 0 <= a[i] < |s|
    requires forall i | 0 <= i < |b| :: 0 <= b[i] < |s|
    ensures Permute(s, a + b) == Permute(s, a) + Permute(s, b)
  {
  }

  /**
   * MoveElementsToEnd: the same reordering applied to the three parallel lists,
   * so they stay in step.
   */
  method MoveElementsToEnd<T1, T2, T3>(list1: seq<T1>, list2: seq<T2>, list3: seq<T3>, positions: seq<int>)
    returns (moved1: seq<T1>, moved2: seq<T2>, moved3: seq<T3>)
    requires |list1| == |list2| == |list3|
    requires DistinctIndices(positions, |list1|)
    ensures moved1 == Permute(list1, ColumnOrder(|list1|, positions))
    ensures moved2 == Permute(list2, ColumnOrder(|list1|, positions))
    ensures moved3 == Permute(list3, ColumnOrder(|list1|, positions))
  {
    moved1 := MoveToEnd(list1, positions);
    moved2 := MoveToEnd(list2, positions);
    moved3 := MoveToEnd(list3, positions);
  }

  /** The PipeNameDict rebuild: Clear, then Add(pipeKeys[i], i); Add would throw on a repeated key. */
  method RebuildPipeNameDict(pipeKeys: seq<string>) returns (pipeNameDict: map<string, int>)
    requires forall i, j | 0 <= i < j < |pipeKeys| :: pipeKeys[i] != pipeKeys[j]
    ensures pipeNameDict == NameIndex(pipeKeys)
    ensures forall k :: k in pipeNameDict <==> k in pipeKeys
    ensures forall i | 0 <= i < |pipeKeys| :: pipeNameDict[pipeKeys[i]] == i
  {
    pipeNameDict := map[];
    for i := 0 to |pipeKeys|
      invariant pipeNameDict == NameIndex(pipeKeys[..i])
    {
      assert pipeKeys[..i + 1][..i] == pipeKeys[..i];
      pipeNameDict := pipeNameDict[pipeKeys[i] := i];
    }
    assert pipeKeys[..|pipeKeys|] == pipeKeys;
    NameIndexLastOccurrence(pipeKeys);
    NameIndexOfDistinct(pipeKeys);
  }

  /** A reordering through an index map with no repeats keeps distinct entries distinct. */
  lemma PermuteDistinct<T>(s: seq<T>, order: seq<int>)
    requires forall i | 0 <= i < |order| :: 0 <= order[i] < |s|
    requires forall i, j | 0 <= i < j < |s| :: s[i] != s[j]
    requires forall i, j | 0 <= i < j < |order| :: order[i] != order[j]
    ensures forall i, j | 0 <= i < j < |order| :: Permute(s, order)[i] != Permute(s, order)[j]
  {
    forall i, j | 0 <= i < j < |order|
      ensures Permute(s, order)[i] != Permute(s, order)[j]
    {
      if order[i] < order[j] {
        assert s[order[i]] != s[order[j]];
      } else {
        assert s[order[j]] != s[order[i]];
      }
    }
  }

  // ---------------------------------------------------------------------------
  // The topology part of DecodeStructure
  // ---------------------------------------------------------------------------

  function PipeNames(pipes: seq<Pipe>): (names: seq<string>)
    ensures |names| == |pipes| && forall i | 0 <= i < |pipes| :: names[i] == pipes[i].index
  {
    seq(|pipes|, i requires 0 <= i < |pipes| => pipes[i].index)
  }

  /** Every station's pipe name is a pipe. */
  predicate StationPipesKnown(pipes: seq<Pipe>, stationPipeNames: seq<string>)
  {
    forall j | 0 <= j < |stationPipeNames| :: stationPipeNames[j] in NameIndex(PipeNames(pipes))
  }

  /** The column of each station's pipe before reordering. */
  function StationPipeIndices(pipes: seq<Pipe>, stationPipeNames: seq<string>): seq<int>
    requires StationPipesKnown(pipes, stationPipeNames)
  {
    seq(|stationPipeNames|, j requires 0 <= j < |stationPipeNames| => NameIndex(PipeNames(pipes))[stationPipeNames[j]])
  }

  /**
   * The ways the topology part of DecodeStructure fails: a pipe end that is not a
   * node, a station pipe name that is not a pipe, or a pipe named by two stations
   * (the column copy then runs past the last column).
   */
  predicate Decodable(dotNameDict: map<string, int>, pipes: seq<Pipe>, stationPipeNames: seq<string>)
  {
    EndpointsKnown(pipes, dotNameDict) && StationPipesKnown(pipes, stationPipeNames) &&
    DistinctIndices(StationPipeIndices(pipes, stationPipeNames), |pipes|)
  }

  /**
   * Node and pipe indexing, the incidence matrix, the move of the station pipes to
   * the end and the PipeNameDict rebuild. stationPipeNames holds the junction
   * pipe of each station, in the order of nodes.stations; the contract does not
   * rely on the two having the same length. On success, column k of the matrix, the
   * junction pair k, pipe k and the name PipeNameDict maps to k all describe the
   * same pipe, the station pipes hold the last columns in station order, and
   * PipeNameDict is a bijection from the pipe names onto 0..pipeNum-1.
   */
  method DecodeTopology(nodes: NodeNames, pipes: seq<Pipe>, stationPipeNames: seq<string>)
    returns (ok: bool, dotNameDict: map<string, int>, dotNum: int, pipeNameDict: map<string, int>,
             matrix: array2<int>, pipeJunction: seq<(int, int)>, orderedPipes: seq<Pipe>)
    requires forall i, j | 0 <= i < j < |pipes| :: pipes[i].index != pipes[j].index
    ensures dotNameDict == NameIndex(NodeOrder(nodes)) && dotNum == |NodeOrder(nodes)|
    ensures ok <==> Decodable(dotNameDict, pipes, stationPipeNames)
    ensures ok ==> (|orderedPipes| == |pipes| &&
      orderedPipes == Permute(pipes, ColumnOrder(|pipes|, StationPipeIndices(pipes, stationPipeNames))))
    ensures ok ==> matrix.Length0 == dotNum && matrix.Length1 == |pipes| && |pipeJunction| == |pipes|
    ensures ok ==> (|orderedPipes| == |pipes| && forall k | 0 <= k < |pipes| ::
      pipeJunction[k] == JunctionPair(orderedPipes[k], dotNameDict) &&
      orderedPipes[k].index in pipeNameDict && pipeNameDict[orderedPipes[k].index] == k)
    ensures ok ==> forall r, k | 0 <= r < dotNum && 0 <= k < |pipes| ::
      matrix[r, k] == IncidenceEntry(orderedPipes[k], dotNameDict, r)
    ensures ok ==> forall name :: name in pipeNameDict <==> name in PipeNames(pipes)
    ensures ok ==> forall j | 0 <= j < |stationPipeNames| ::
      stationPipeNames[j] in pipeNameDict && pipeNameDict[stationPipeNames[j]] == |pipes| - |stationPipeNames| + j
  {
    dotNameDict, dotNum := IndexNodes(nodes);
    NameIndexRange(NodeOrder(nodes));
    var names := PipeNames(pipes);
    var pipeIndex, pipeNum := IndexNames(map[], 0, names, []);
    assert [] + names == names;
    var found, graph, junction := BuildIncidence(pipes, dotNameDict, dotNum);
    pipeNameDict, matrix, pipeJunction, orderedPipes := map[], graph.matrix, junction, pipes;
    if !found || exists j | 0 <= j < |stationPipeNames| :: stationPipeNames[j] !in pipeIndex {
      return false, dotNameDict, dotNum, pipeNameDict, matrix, pipeJunction, orderedPipes;
    }
    var indices := seq(|stationPipeNames|, j requires 0 <= j < |stationPipeNames| => pipeIndex[stationPipeNames[j]]);
    assert indices == StationPipeIndices(pipes, stationPipeNames);
    if !DistinctIndices(indices, pipeNum) {
      return false, dotNameDict, dotNum, pipeNameDict, matrix, pipeJunction, orderedPipes;
    }
    ok := true;
    matrix, pipeJunction, orderedPipes, pipeNameDict := ReorderPipes(graph.matrix, junction, pipes, dotNameDict, dotNum, indices);
    StationPipeNamesMatch(pipes, stationPipeNames);
  }

  /** The column found for each station's pipe name holds the pipe of that name. */
  lemma StationPipeNamesMatch(pipes: seq<Pipe>, stationPipeNames: seq<string>)
    requires StationPipesKnown(pipes, stationPipeNames)
    ensures var indices := StationPipeIndices(pipes, stationPipeNames);
      forall j | 0 <= j < |stationPipeNames| ::
        0 <= indices[j] < |pipes| && pipes[indices[j]].index == stationPipeNames[j]
  {
    NameIndexLastOccurrence(PipeNames(pipes));
  }

  /**
   * The reordering of DecodeStructure: the incidence columns, the junction pairs
   * and the pipes are moved by the same permutation, and the pipe names are
   * renumbered in the new order.
   */
  method ReorderPipes(incidence: array2<int>, junction: seq<(int, int)>, pipes: seq<Pipe>,
                      dotNameDict: map<string, int>, dotNum: int, indices: seq<int>)
    returns (matrix: array2<int>, pipeJunction: seq<(int, int)>, orderedPipes: seq<Pipe>,
             pipeNameDict: map<string, int>)
    requires forall i, j | 0 <= i < j < |pipes| :: pipes[i].index != pipes[j].index
    requires EndpointsKnown(pipes, dotNameDict)
    requires incidence.Length0 == dotNum && incidence.Length1 == |pipes| && |junction| == |pipes|
    requires forall c | 0 <= c < |pipes| :: junction[c] == JunctionPair(pipes[c], dotNameDict)
    requires forall r, c | 0 <= r < dotNum && 0 <= c < |pipes| ::
      incidence[r, c] == IncidenceEntry(pipes[c], dotNameDict, r)
    requires DistinctIndices(indices, |pipes|)
    ensures |orderedPipes| == |pipes| && orderedPipes == Permute(pipes, ColumnOrder(|pipes|, indices))
    ensures matrix.Length0 == dotNum && matrix.Length1 == |pipes| && |pipeJunction| == |pipes|
    ensures forall k | 0 <= k < |pipes| ::
      pipeJunction[k] == JunctionPair(orderedPipes[k], dotNameDict) &&
      orderedPipes[k].index in pipeNameDict && pipeNameDict[orderedPipes[k].index] == k
    ensures forall r, k | 0 <= r < dotNum && 0 <= k < |pipes| ::
      matrix[r, k] == IncidenceEntry(orderedPipes[k], dotNameDict, r)
    ensures forall name :: name in pipeNameDict <==> name in PipeNames(pipes)
    ensures forall j | 0 <= j < |indices| ::
      pipes[indices[j]].index in pipeNameDict && pipeNameDict[pipes[indices[j]].index] == |pipes| - |indices| + j
  {
    var names := PipeNames(pipes);
    ghost var order := ColumnOrder(|pipes|, indices);
    ColumnOrderIsPermutation(|pipes|, indices);
    matrix := MoveColumnsToEnd(incidence, indices);
    var pipeKeys;
    pipeJunction, pipeKeys, orderedPipes := MoveElementsToEnd(junction, names, pipes, indices);
    PermuteDistinct(names, order);
    pipeNameDict := RebuildPipeNameDict(pipeKeys);
    PermutedKeys(names, order);
    ReorderedLists(names, pipes, junction, dotNameDict, indices, pipeKeys, orderedPipes, pipeJunction, pipeNameDict);
    ReorderedColumns(incidence, matrix, pipes, orderedPipes, dotNameDict, order);
  }

  /** The junction pairs, the pipes and the renumbered names stay in step. */
  lemma ReorderedLists(names: seq<string>, pipes: seq<Pipe>, junction: seq<(int, int)>,
                       dotNameDict: map<string, int>, indices: seq<int>, pipeKeys: seq<string>,
                       orderedPipes: seq<Pipe>, pipeJunction: seq<(int, int)>, pipeNameDict: map<string, int>)
    requires names == PipeNames(pipes) && |junction| == |pipes|
    requires EndpointsKnown(pipes, dotNameDict)
    requires forall c | 0 <= c < |pipes| :: junction[c] == JunctionPair(pipes[c], dotNameDict)
    requires DistinctIndices(indices, |pipes|)
    requires |ColumnOrder(|pipes|, indices)| == |pipes|
    requires pipeKeys == Permute(names, ColumnOrder(|pipes|, indices))
    requires orderedPipes == Permute(pipes, ColumnOrder(|pipes|, indices))
    requires pipeJunction == Permute(junction, ColumnOrder(|pipes|, indices))
    requires forall i | 0 <= i < |pipeKeys| :: pipeKeys[i] in pipeNameDict && pipeNameDict[pipeKeys[i]] == i
    ensures forall k | 0 <= k < |pipes| ::
      pipeJunction[k] == JunctionPair(orderedPipes[k], dotNameDict) &&
      orderedPipes[k].index in pipeNameDict && pipeNameDict[orderedPipes[k].index] == k
    ensures forall j | 0 <= j < |indices| ::
      pipes[indices[j]].index in pipeNameDict && pipeNameDict[pipes[indices[j]].index] == |pipes| - |indices| + j
  {
    var order := ColumnOrder(|pipes|, indices);
    forall k | 0 <= k < |pipes|
      ensures pipeJunction[k] == JunctionPair(orderedPipes[k], dotNameDict)
      ensures orderedPipes[k].index in pipeNameDict && pipeNameDict[orderedPipes[k].index] == k
    {
      var c := order[k];
      assert pipeJunction[k] == junction[c] && orderedPipes[k] == pipes[c] && pipeKeys[k] == names[c];
    }
    forall j | 0 <= j < |indices|
      ensures pipeKeys[|pipes| - |indices| + j] == pipes[indices[j]].index
    {
      assert order[|pipes| - |indices| + j] == indices[j];
    }
  }

  /** Column k of the moved matrix is the incidence column of the k-th reordered pipe. */
  lemma ReorderedColumns(incidence: array2<int>, matrix: array2<int>, pipes: seq<Pipe>, orderedPipes: seq<Pipe>,
                         dotNameDict: map<string, int>, order: seq<int>)
    requires EndpointsKnown(pipes, dotNameDict)
    requires incidence.Length1 == |pipes| == |order| && matrix.Length0 == incidence.Length0 && matrix.Length1 == |pipes|
    requires forall i | 0 <= i < |order| :: 0 <= order[i] < |pipes|
    requires forall r, c | 0 <= r < incidence.Length0 && 0 <= c < |pipes| ::
      incidence[r, c] == IncidenceEntry(pipes[c], dotNameDict, r)
    requires orderedPipes == Permute(pipes, order)
    requires forall r, c | 0 <= r < incidence.Length0 && 0 <= c < |pipes| :: matrix[r, c] == incidence[r, order[c]]
    ensures forall r, k | 0 <= r < incidence.Length0 && 0 <= k < |pipes| ::
      orderedPipes[k].junctionA in dotNameDict && orderedPipes[k].junctionB in dotNameDict &&
      matrix[r, k] == IncidenceEntry(orderedPipes[k], dotNameDict, r)
  {
    forall r, k | 0 <= r < incidence.Length0 && 0 <= k < |pipes|
      ensures orderedPipes[k].junctionA in dotNameDict && orderedPipes[k].junctionB in dotNameDict
      ensures matrix[r, k] == IncidenceEntry(orderedPipes[k], dotNameDict, r)
    {
      assert orderedPipes[k] == pipes[order[k]];
    }
  }

  /** Reading the names through a permutation of their positions gives the same set of names. */
  lemma PermutedKeys(names: seq<string>, order: seq<int>)
    requires |order| == |names|
    requires forall i | 0 <= i < |order| :: 0 <= order[i] < |names|
    requires forall c | 0 <= c < |names| :: c in order
    ensures forall name :: name in Permute(names, order) <==> name in names
  {
    forall name | name in names
      ensures name in Permute(names, order)
    {
      var c :| 0 <= c < |names| && names[c] == name;
      assert c in order;
      var k :| 0 <= k < |order| && order[k] == c;
      assert Permute(names, order)[k] == name;
    }
  }

  // ---------------------------------------------------------------------------
  // User flow updates
  // ---------------------------------------------------------------------------

  /** One entry of "usersChange": a user number and its new flow, or an entry whose fields cannot be read. */
  datatype FlowChange = FlowChange(usersNumber: string, fluid: real) | Malformed

  /** The flow change file as far as the update logic sees it. */
  datatype ChangeFile =
    | Missing                        // no file at the path
    | Unparsable                     // the JSON cannot be read
    | NoChangeList                   // no "usersChange" array
    | Changes(entries: seq<FlowChange>)

  /** The position of the first user with the given index, or -1 (FirstOrDefault). */
  function FirstMatch(users: seq<User>, usersNumber: string): (i: int)
    ensures -1 <= i < |users|
    ensures i == -1 <==> forall j | 0 <= j < |users| :: users[j].index != usersNumber
    ensures i >= 0 ==> users[i].index == usersNumber && forall j | 0 <= j < i :: users[j].index != usersNumber
  {
    if |users| == 0 then -1
    else if users[0].index == usersNumber then 0
    else var rest := FirstMatch(users[1..], usersNumber); if rest == -1 then -1 else rest + 1
  }

  /** One entry applied: the first matching user gets the new initial flow; nobody else changes. */
  function ApplyChange(users: seq<User>, usersNumber: string, fluid: real): (r: seq<User>)
    ensures |r| == |users|
    ensures forall j | 0 <= j < |users| ::
      r[j] == if j == FirstMatch(users, usersNumber) then users[j].(initialFlow := fluid) else users[j]
  {
    var i := FirstMatch(users, usersNumber);
    if i == -1 then users else users[i := users[i].(initialFlow := fluid)]
  }

  /** The entries before the first malformed one: processing stops there (the exception is caught). */
  function ReadableEntries(entries: seq<FlowChange>): (r: seq<FlowChange>)
    ensures |r| <= |entries| && r == entries[..|r|]
    ensures forall j | 0 <= j < |r| :: r[j].FlowChange?
    ensures |r| < |entries| ==> entries[|r|].Malformed?
  {
    if |entries| == 0 || entries[0].Malformed? then []
    else [entries[0]] + ReadableEntries(entries[1..])
  }

  /** The entries applied in file order. */
  function ApplyChanges(users: seq<User>, entries: seq<FlowChange>): seq<User>
    requires forall j | 0 <= j < |entries| :: entries[j].FlowChange?
  {
    if |entries| == 0 then users
    else
      var last := entries[|entries| - 1];
      ApplyChange(ApplyChanges(users, entries[..|entries| - 1]), last.usersNumber, last.fluid)
  }

  /** The user list after ReadUsersFlowChange. */
  function UsersAfterChanges(users: seq<User>, file: ChangeFile): seq<User>
  {
    if file.Changes? then ApplyChanges(users, ReadableEntries(file.entries)) else users
  }

  /**
   * Applying changes keeps the user list's length and every user's identity and
   * other fields; only initial flows move, and a user no entry names keeps its flow.
   */
  lemma {:induction false} ApplyChangesOnlyFlows(users: seq<User>, entries: seq<FlowChange>)
    requires forall j | 0 <= j < |entries| :: entries[j].FlowChange?
    ensures |ApplyChanges(users, entries)| == |users|
    ensures forall i | 0 <= i < |users| ::
      ApplyChanges(users, entries)[i] == users[i].(initialFlow := ApplyChanges(users, entries)[i].initialFlow)
    ensures forall i | 0 <= i < |users| && (forall j | 0 <= j < |entries| :: entries[j].usersNumber != users[i].index) ::
      ApplyChanges(users, entries)[i] == users[i]
  {
    if |entries| > 0 {
      var front := entries[..|entries| - 1];
      ApplyChangesOnlyFlows(users, front);
      var before := ApplyChanges(users, front);
      var last := entries[|entries| - 1];
      forall i | 0 <= i < |users| && (forall j | 0 <= j < |entries| :: entries[j].usersNumber != users[i].index)
        ensures ApplyChanges(users, entries)[i] == users[i]
      {
        assert forall j | 0 <= j < |front| :: front[j] == entries[j];
        assert before[i].index == users[i].index;
        assert before[i].index != last.usersNumber;
      }
    }
  }

  /** A missing, unreadable or empty change file leaves every user as it was. */
  lemma NoChangesNoUpdate(users: seq<User>, file: ChangeFile)
    requires !file.Changes? || ReadableEntries(file.entries) == []
    ensures UsersAfterChanges(users, file) == users
  {
  }

  /**
   * ReadUsersFlowChange: for each readable entry the first user with that index
   * gets the new InitialFlow; an entry naming no user is skipped; a malformed
   * entry ends the updates but keeps those already made; a missing or unreadable
   * file changes nothing.
   */
  method ReadUsersFlowChange(file: ChangeFile, components: SystemComponents)
    modifies components`userSides
    ensures components.userSides == UsersAfterChanges(old(components.userSides), file)
  {
    if !file.Changes? {
      return;
    }
    ghost var users0 := components.userSides;
    var entries := file.entries;
    var i := 0;
    while i < |entries| && entries[i].FlowChange?
      invariant 0 <= i <= |entries|
      invariant forall j | 0 <= j < i :: entries[j].FlowChange?
      invariant components.userSides == ApplyChanges(users0, entries[..i])
    {
      UpdateUserFlow(entries[i].usersNumber, entries[i].fluid, components);
      ApplyChangesStep(users0, entries, i);
      i := i + 1;
    }
    ReadablePrefix(entries, i);
  }

  /** One entry of the update loop: the first user with the index gets the new InitialFlow, if there is one. */
  method UpdateUserFlow(usersNumber: string, fluid: real, components: SystemComponents)
    modifies components`userSides
    ensures components.userSides == ApplyChange(old(components.userSides), usersNumber, fluid)
  {
    var users := components.userSides;
    var u := FindUser(users, usersNumber);
    if u >= 0 {
      components.userSides := users[u := users[u].(initialFlow := fluid)];
    }
    ApplyChangeAt(users, usersNumber, fluid, u);
  }

  /** ApplyChange given the position FirstOrDefault found. */
  lemma ApplyChangeAt(users: seq<User>, usersNumber: string, fluid: real, u: int)
    requires u == FirstMatch(users, usersNumber)
    ensures ApplyChange(users, usersNumber, fluid) ==
      if u >= 0 then users[u := users[u].(initialFlow := fluid)] else users
  {
  }

  /** One more readable entry applies one more change. */
  lemma ApplyChangesStep(users: seq<User>, entries: seq<FlowChange>, i: int)
    requires 0 <= i < |entries| && forall j | 0 <= j <= i :: entries[j].FlowChange?
    ensures ApplyChanges(users, entries[..i + 1]) ==
      ApplyChange(ApplyChanges(users, entries[..i]), entries[i].usersNumber, entries[i].fluid)
  {
    assert entries[..i + 1][..i] == entries[..i];
  }

  /** FirstOrDefault over the users: a linear scan for the first matching index, -1 when there is none. */
  method FindUser(users: seq<User>, usersNumber: string) returns (u: int)
    ensures u == FirstMatch(users, usersNumber)
  {
    u := 0;
    while u < |users| && users[u].index != usersNumber
      invariant 0 <= u <= |users|
      invariant forall j | 0 <= j < u :: users[j].index != usersNumber
    {
      u := u + 1;
    }
    if u == |users| {
      u := -1;
    }
  }

  /** The loop stops exactly at the end of the readable entries. */
  lemma {:induction false} ReadablePrefix(entries: seq<FlowChange>, i: int)
    requires 0 <= i <= |entries|
    requires forall j | 0 <= j < i :: entries[j].FlowChange?
    requires i < |entries| ==> entries[i].Malformed?
    ensures ReadableEntries(entries) == entries[..i]
  {
    if i > 0 {
      ReadablePrefix(entries[1..], i - 1);
      assert entries[..i] == [entries[0]] + entries[1..][..i - 1];
    }
  }

  // ---------------------------------------------------------------------------
  // Decoding the parsed records
  // ---------------------------------------------------------------------------

  /** The system properties as read: the fluid number and the temperature in degrees Celsius. */
  datatype SystemEntry = SystemEntry(fluidNumber: int, temperature: real)

  /** The system properties as kept: the temperature in kelvin. */
  datatype SystemProperties = SystemProperties(fluidNumber: int, temperature: real)

  /** The temperature is kept in kelvin: a reading at or above absolute zero gives a non-negative temperature. */
  function DecodeSystem(e: SystemEntry): (p: SystemProperties)
    ensures p.fluidNumber == e.fluidNumber
    ensures p.temperature - 273.15 == e.temperature
    ensures p.temperature >= 0.0 <==> e.temperature >= -273.15
  {
    SystemProperties(e.fluidNumber, e.temperature + 273.15)
  }

  /** A valve as read: its measure as given and its diameter in millimetres. */
  datatype ValveEntry = ValveEntry(valveNumber: string, junctionsA: string, junctionsB: string,
                                   flowDirection: int, valveType: int, valveMeasure: real, diameter: real)

  /** A valve as kept: its measure scaled by 100 and its diameter in metres. */
  datatype Valve = Valve(index: string, junctionsA: string, junctionsB: string,
                         flowDirection: int, valveType: int, valveMeasure: real, diameter: real)

  /** A valve without a number is refused; otherwise its measure is scaled by 100 and its diameter kept in metres. */
  function DecodeValve(e: ValveEntry): (r: Option<Valve>)
    ensures r.None? <==> e.valveNumber == ""
    ensures r.Some? ==>
      r.value.index == e.valveNumber && r.value.junctionsA == e.junctionsA && r.value.junctionsB == e.junctionsB &&
      r.value.flowDirection == e.flowDirection && r.value.valveType == e.valveType &&
      r.value.valveMeasure / 100.0 == e.valveMeasure && r.value.diameter * 1000.0 == e.diameter
  {
    if e.valveNumber == "" then None
    else Some(Valve(e.valveNumber, e.junctionsA, e.junctionsB, e.flowDirection, e.valveType,
                    e.valveMeasure * 100.0, e.diameter / 1000.0))
  }

  /** A reducer as read: both diameters in millimetres. */
  datatype ReducerEntry = ReducerEntry(reducingNumber: string, junctionsA: string, junctionsB: string,
                                       diameterA: real, diameterB: real, angleDegrees: real)

  /** A reducer as kept: both diameters in metres. */
  datatype Reducer = Reducer(index: string, junctionsA: string, junctionsB: string,
                             diameterA: real, diameterB: real, angleDegrees: real)

  /** A reducer without a number is refused; otherwise both diameters are kept in metres and their order is kept. */
  function DecodeReducer(e: ReducerEntry): (r: Option<Reducer>)
    ensures r.None? <==> e.reducingNumber == ""
    ensures r.Some? ==>
      r.value.index == e.reducingNumber && r.value.junctionsA == e.junctionsA && r.value.junctionsB == e.junctionsB &&
      r.value.diameterA * 1000.0 == e.diameterA && r.value.diameterB * 1000.0 == e.diameterB &&
      r.value.angleDegrees == e.angleDegrees &&
      (r.value.diameterA < r.value.diameterB <==> e.diameterA < e.diameterB)
  {
    if e.reducingNumber == "" then None
    else Some(Reducer(e.reducingNumber, e.junctionsA, e.junctionsB, e.diameterA / 1000.0, e.diameterB / 1000.0, e.angleDegrees))
  }

  /** A user as read: the warning pressure in kilopascal. */
  datatype UserEntry = UserEntry(userSideNumber: string, junctions: string, initialFlow: real, warmPressure: real)

  /** A user without a number is refused; otherwise the warning pressure is kept in pascal and nothing is solved yet. */
  function DecodeUser(e: UserEntry): (r: Option<User>)
    ensures r.None? <==> e.userSideNumber == ""
    ensures r.Some? ==>
      r.value.index == e.userSideNumber && r.value.junctionNodeId == e.junctions &&
      r.value.initialFlow == e.initialFlow && r.value.warnPressure / 1000.0 == e.warmPressure &&
      r.value.realTimePressure == 0.0 && r.value.realTimeFlow == 0.0
  {
    if e.userSideNumber == "" then None
    else Some(User(e.userSideNumber, e.junctions, e.initialFlow, 1000.0 * e.warmPressure, 0.0, 0.0))
  }

  /** A compressor as read: the lowest valve degree in percent. */
  datatype CompressorEntry = CompressorEntry(index: int, maxCompressorFlow: real, lowDegree: real)

  /**
   * The lowest valve degree is kept as a fraction, which lies in [0, 1] exactly
   * when the percentage read lies in [0, 100]; nothing is running yet.
   */
  function DecodeCompressor(e: CompressorEntry): (c: Compressor)
    ensures c.index == e.index && c.maxFlow == e.maxCompressorFlow
    ensures c.minValveDegree * 100.0 == e.lowDegree
    ensures 0.0 <= c.minValveDegree <= 1.0 <==> 0.0 <= e.lowDegree <= 100.0
    ensures c.currentValveDegree == 0.0 && c.realTimeFlow == 0.0 && c.realTimePower == 0.0
  {
    Compressor(e.index, e.maxCompressorFlow, e.lowDegree / 100.0, 0.0, 0.0, 0.0)
  }

  /** A station as read: the initial pressure in kilopascal and its compressors. */
  datatype StationEntry = StationEntry(stationNumber: string, junctions: string, initialPressure: real,
                                       compressors: seq<CompressorEntry>)

  /**
   * A station without a number or without compressors is refused; otherwise
   * the initial pressure is kept in pascal, the compressors are decoded in
   * order, and nothing is solved yet.
   */
  function DecodeStation(e: StationEntry): (r: Option<Station>)
    ensures r.None? <==> e.stationNumber == "" || |e.compressors| == 0
    ensures r.Some? ==>
      r.value.index == e.stationNumber && r.value.junctionNodeId == e.junctions &&
      r.value.initialPressure / 1000.0 == e.initialPressure &&
      |r.value.compressors| == |e.compressors| &&
      (forall k | 0 <= k < |e.compressors| :: r.value.compressors[k] == DecodeCompressor(e.compressors[k])) &&
      r.value.tempPressure == 0.0 && r.value.realTimePressure == 0.0 && r.value.realTimeFlow == 0.0 &&
      r.value.totalPower == 0.0 && r.value.wastedFlow == 0.0 && r.value.openCompressorCount == 0
  {
    if e.stationNumber == "" || |e.compressors| == 0 then None
    else
      var compressors := seq(|e.compressors|, k requires 0 <= k < |e.compressors| => DecodeCompressor(e.compressors[k]));
      Some(Station(e.stationNumber, e.junctions, compressors, e.initialPressure * 1000.0, 0.0, 0.0, 0.0, 0.0, 0.0, 0))
  }

  /**
   * A decoded station can be loaded (its first compressor has a positive
   * maximum flow) exactly when the first compressor read has one.
   */
  lemma DecodedStationLoadable(e: StationEntry)
    requires DecodeStation(e).Some?
    ensures LoadableStation(DecodeStation(e).value) <==> e.compressors[0].maxCompressorFlow > 0.0
  {
    assert DecodeStation(e).value.compressors[0] == DecodeCompressor(e.compressors[0]);
  }

  /**
   * Station pressures and users' warning pressures are both read in kilopascal
   * and kept in pascal, so comparing them after decoding agrees with comparing
   * the values read.
   */
  lemma DecodedPressuresCompare(s: StationEntry, u: UserEntry)
    requires DecodeStation(s).Some? && DecodeUser(u).Some?
    ensures DecodeStation(s).value.initialPressure >= DecodeUser(u).value.warnPressure <==> s.initialPressure >= u.warmPressure
  {
    var station, user := DecodeStation(s).value, DecodeUser(u).value;
    assert station.initialPressure == 1000.0 * s.initialPressure;
    assert user.warnPressure == 1000.0 * u.warmPressure;
  }

  /** A straight section as read: the diameter in millimetres and the roughness possibly missing. */
  datatype StraightEntry = StraightEntry(length: real, diameter: real, roughness: Option<real>)

  /** A straight section as kept: the diameter in metres. */
  datatype StraightSection = StraightSection(length: real, diameter: real, roughness: real)

  /** The diameter is kept in metres; a roughness read is kept, and a missing one becomes 0.1. */
  function DecodeStraight(e: StraightEntry): (s: StraightSection)
    ensures s.length == e.length && s.diameter * 1000.0 == e.diameter
    ensures e.roughness.Some? ==> s.roughness == e.roughness.value
    ensures e.roughness.None? ==> s.roughness == 0.1
  {
    StraightSection(e.length, e.diameter / 1000.0, if e.roughness.Some? then e.roughness.value else 0.1)
  }

  /** A composite pipe as read: its straight sections. */
  datatype PipeEntry = PipeEntry(compositePipesNumber: string, junctionsA: string, junctionsB: string,
                                 flowDirection: int, straight: seq<StraightEntry>)

  /** A composite pipe as kept, with its straight sections. */
  datatype DecodedPipe = DecodedPipe(pipe: Pipe, sections: seq<StraightSection>)

  /**
   * A pipe without a number or without straight sections is refused; otherwise
   * the sections are decoded in order and nothing is solved yet.
   */
  function DecodePipe(e: PipeEntry): (r: Option<DecodedPipe>)
    ensures r.None? <==> e.compositePipesNumber == "" || |e.straight| == 0
    ensures r.Some? ==>
      r.value.pipe.index == e.compositePipesNumber &&
      r.value.pipe.junctionA == e.junctionsA && r.value.pipe.junctionB == e.junctionsB &&
      r.value.pipe.flowDirection == e.flowDirection &&
      |r.value.sections| == |e.straight| &&
      (forall k | 0 <= k < |e.straight| :: r.value.sections[k] == DecodeStraight(e.straight[k])) &&
      r.value.pipe.averagePressure == 0.0 && r.value.pipe.pressureA == 0.0 && r.value.pipe.pressureB == 0.0 &&
      r.value.pipe.dropPressure == 0.0 && r.value.pipe.flow == 0.0 && r.value.pipe.pipeEfficiency == Finite(0.0)
  {
    if e.compositePipesNumber == "" || |e.straight| == 0 then None
    else
      var sections := seq(|e.straight|, k requires 0 <= k < |e.straight| => DecodeStraight(e.straight[k]));
      Some(DecodedPipe(Pipe(e.compositePipesNumber, e.junctionsA, e.junctionsB, e.flowDirection,
                            0.0, 0.0, 0.0, 0.0, 0.0, Finite(0.0)), sections))
  }

  /**
   * A list of records decoded one after the other: the first record refused
   * refuses the whole file; otherwise every record is decoded, in order.
   */
  function DecodeAll<E, R>(entries: seq<E>, decode: E -> Option<R>): (r: Option<seq<R>>)
    ensures r.None? <==> exists k | 0 <= k < |entries| :: decode(entries[k]).None?
    ensures r.Some? ==> |r.value| == |entries| && forall k | 0 <= k < |entries| :: decode(entries[k]) == Some(r.value[k])
  {
    if |entries| == 0 then Some([])
    else
      var front := DecodeAll(entries[..|entries| - 1], decode);
      var last := decode(entries[|entries| - 1]);
      if front.None? || last.None? then None
      else Some(front.value + [last.value])
  }

  /**
   * The decoding loop over one list of records: each record is decoded and
   * added, and the first one refused stops the decoding.
   */
  method DecodeEach<E, R>(entries: seq<E>, decode: E -> Option<R>) returns (r: Option<seq<R>>)
    ensures r == DecodeAll(entries, decode)
  {
    var decoded: seq<R> := [];
    for i := 0 to |entries|
      invariant DecodeAll(entries[..i], decode) == Some(decoded)
    {
      var item := decode(entries[i]);
      assert entries[..i + 1][..i] == entries[..i];
      if item.None? {
        assert DecodeAll(entries[..i + 1], decode).None?;
        DecodeAllRefused(entries, decode, i + 1);
        return None;
      }
      decoded := decoded + [item.value];
    }
    assert entries[..|entries|] == entries;
    r := Some(decoded);
  }

  /** Once a prefix is refused, so is the whole list. */
  lemma DecodeAllRefused<E, R>(entries: seq<E>, decode: E -> Option<R>, n: int)
    requires 0 <= n <= |entries| && DecodeAll(entries[..n], decode).None?
    ensures DecodeAll(entries, decode).None?
  {
    var k :| 0 <= k < n && decode(entries[..n][k]).None?;
    assert entries[k] == entries[..n][k];
  }

  datatype Option<T> = None | Some(value: T)
}
