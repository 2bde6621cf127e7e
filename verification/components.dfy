/**
 * The records of the pipe network (the models of the system): compressors, stations,
 * users and composite pipes with the fields the services read and write, and the
 * network object whose result fields the calculation fills in.
 */
module Components {
  import opened Numerics

  datatype Compressor = Compressor(
    index: int,
    maxFlow: real,
    minValveDegree: real,
    currentValveDegree: real,
    realTimeFlow: real,
    realTimePower: real)

  datatype Station = Station(
    index: string,
    junctionNodeId: string,
    compressors: seq<Compressor>,
    initialPressure: real,
    tempPressure: real,
    realTimePressure: real,
    realTimeFlow: real,
    totalPower: real,
    wastedFlow: real,
    openCompressorCount: int)

  datatype User = User(
    index: string,
    junctionNodeId: string,
    initialFlow: real,
    warnPressure: real,
    realTimePressure: real,
    realTimeFlow: real)

  /** A composite pipe; FlowDirection 1 means A to B. */
  datatype Pipe = Pipe(
    index: string,
    junctionA: string,
    junctionB: string,
    flowDirection: int,
    averagePressure: real,
    pressureA: real,
    pressureB: real,
    dropPressure: real,
    flow: real,
    pipeEfficiency: Double)

  /** The figures LoadData writes into the components. */
  datatype Figures = Figures(stations: seq<Station>, users: seq<User>, pipes: seq<Pipe>,
                             totalPower: real, systemEfficiency: real, totalEfficiency: real)

  /** The solved vectors and dictionaries LoadData reads. */
  datatype Solution = Solution(dotPressure: seq<real>, pipeFlow: seq<real>, pipeJunction: seq<(int, int)>,
                               dotNameDict: map<string, int>, pipeNameDict: map<string, int>)

  /**
   * SystemParameter: the solved state of the last calculation (node pressures,
   * pipe flows, each pipe's node pair, the name-to-index dictionaries) and the
   * system figures LoadData derives from it.
   */
  class SystemParameter {
    var dotPressure: seq<real>
    var pipeFlow: seq<real>
    var pipeJunction: seq<(int, int)>
    var dotNameDict: map<string, int>
    var pipeNameDict: map<string, int>
    var totalPower: real
    var systemEfficiency: real
    var totalEfficiency: real

    /** The solved state LoadData reads. */
    function SolutionOf(): Solution
      reads this`dotPressure, this`pipeFlow, this`pipeJunction, this`dotNameDict, this`pipeNameDict
    {
      Solution(dotPressure, pipeFlow, pipeJunction, dotNameDict, pipeNameDict)
    }
  }

  /** SystemComponents: the component lists and the parameter object they are solved with. */
  class SystemComponents {
    const systemParameter: SystemParameter
    var airCompressionStations: seq<Station>
    var userSides: seq<User>
    var compositePipes: seq<Pipe>

    /** The lists start empty. */
    constructor (systemParameter: SystemParameter)
      ensures this.systemParameter == systemParameter
      ensures airCompressionStations == [] && userSides == [] && compositePipes == []
    {
      this.systemParameter := systemParameter;
      airCompressionStations := [];
      userSides := [];
      compositePipes := [];
    }

    /** The figures LoadData writes. */
    function Snapshot(): Figures
      reads this, systemParameter`totalPower, systemParameter`systemEfficiency, systemParameter`totalEfficiency
    {
      Figures(airCompressionStations, userSides, compositePipes, systemParameter.totalPower,
              systemParameter.systemEfficiency, systemParameter.totalEfficiency)
    }
  }
}
