/** Record types of the static JSON files (roles, sectors, stats, cascade and
    per-sector networks). JavaScript numbers are modelled as `real`; a `null`
    or absent optional value is `None`. */
module Types {

  datatype Option<T> = None | Some(value: T)

  /** A click on `clicked` in a single-selection control: clicking the
      current choice clears it, clicking anything else chooses that. */
  function Toggle<T(==)>(current: Option<T>, clicked: T): (r: Option<T>)
    ensures r == None <==> current == Some(clicked)
    ensures r != None ==> r == Some(clicked)
  {
    if current == Some(clicked) then None else Some(clicked)
  }

  /** Clicking the same thing twice restores the choice exactly when nothing
      or that thing was chosen; from another choice it ends with nothing
      chosen. */
  lemma ToggleTwice<T>(current: Option<T>, clicked: T)
    ensures Toggle(Toggle(current, clicked), clicked) == current <==> current == None || current == Some(clicked)
    ensures current != None && current != Some(clicked) ==> Toggle(Toggle(current, clicked), clicked) == None
  {
  }

  /** The four quadrants of the PTR x NFC split. */
  datatype QuadrantCode = HH | HL | LH | LL

  /** The two-letter code a quadrant is written as in the JSON files. */
  function CodeName(q: QuadrantCode): string
  {
    match q
    case HH => "HH"
    case HL => "HL"
    case LH => "LH"
    case LL => "LL"
  }

  datatype Role = Role(
    id: string,
    title: string,
    sector: string,
    soc: string,
    ptr: real,
    nfc: real,
    quadrantCode: QuadrantCode,
    aiExposureEloundou: real,
    aiExposureMicrosoft: real,
    betweenness: real)

  /** A role as it appears in one sector's network file. The simulation
      fields (x, y, fx, fy) live on NetworkGraph.SimNode. */
  datatype NetworkNode = NetworkNode(
    id: string,
    labelText: string,
    soc: string,
    ptr: real,
    nfc: real,
    quadrant: QuadrantCode,
    size: real,
    aiExposure: real,
    betweenness: Option<real>)

  /** An edge endpoint is either a node id or a node object. */
  datatype EdgeEnd = ById(id: string) | ByNode(node: NetworkNode)

  datatype NetworkEdge = NetworkEdge(source: EdgeEnd, target: EdgeEnd, weight: real)

  datatype NetworkMetadata = NetworkMetadata(nodeCount: int, edgeCount: int, generatedAt: string)

  datatype SectorNetwork = SectorNetwork(
    sector: string,
    metadata: NetworkMetadata,
    nodes: seq<NetworkNode>,
    edges: seq<NetworkEdge>)

  datatype SectorSummary = SectorSummary(
    sector: string,
    totalRoles: int,
    rolesWithIndices: int,
    avgPtr: real,
    avgNfc: real,
    avgAiExposure: real,
    hhCount: int,
    hhShare: real,
    highPtrCount: int,
    highNfcCount: int)

  datatype QuadrantDistribution = QuadrantDistribution(quadrant: QuadrantCode, count: int, share: real)

  datatype ResearchStats = ResearchStats(
    totalRoles: int,
    totalSectors: int,
    ptrNfcCorrelation: real,
    hhRoles: int,
    hhShare: real,
    quadrantDistribution: seq<QuadrantDistribution>)

  datatype CascadeResult = CascadeResult(
    strategy: string,
    componentsAfter: int,
    fragmentationIncrease: real,
    giantSizeAfter: int)
}
