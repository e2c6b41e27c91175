/** The backing store as the property graph sees it. An RDG is the stored form
    of a graph: its topology and its node and edge property tables. The store
    is the set of RDG names that exist together with what each holds;
    partitions, byte layout and the I/O itself are not modelled. */
module Rdgs {
  import opened Results
  import opened Tables
  import opened Topology

  datatype Rdg = Rdg(topology: GraphTopology, nodeTable: Table, edgeTable: Table)

  /** The names the backing store knows, and the RDG stored under each. */
  class RdgStore {
    var rdgs: map<string, Rdg>

    constructor (initial: map<string, Rdg>)
      ensures rdgs == initial
    {
      rdgs := initial;
    }
  }

  /** Loading only the named node and edge properties of `rdg`: each table keeps
      the requested properties in the requested order, and the load fails with
      invalid_argument when a name is requested twice, is missing, or matches
      several properties. */
  function LoadSelective(rdg: Rdg, nodeNames: seq<string>, edgeNames: seq<string>): (r: Result<Rdg>)
    ensures r.Ok? <==>
              && NoRepeats(nodeNames) && NoRepeats(edgeNames)
              && (forall k :: 0 <= k < |nodeNames| ==> CountNamed(rdg.nodeTable.props, nodeNames[k]) == 1)
              && (forall k :: 0 <= k < |edgeNames| ==> CountNamed(rdg.edgeTable.props, edgeNames[k]) == 1)
    ensures r.Err? ==> r.error == InvalidArgument
    ensures r.Ok? ==> r.value.topology == rdg.topology
    ensures r.Ok? ==> Names(r.value.nodeTable.props) == nodeNames && Names(r.value.edgeTable.props) == edgeNames
    ensures r.Ok? ==> r.value.nodeTable.numRows == rdg.nodeTable.numRows && r.value.edgeTable.numRows == rdg.edgeTable.numRows
    ensures r.Ok? ==> forall k :: 0 <= k < |nodeNames| ==> r.value.nodeTable.props[k] in rdg.nodeTable.props
    ensures r.Ok? ==> forall k :: 0 <= k < |edgeNames| ==> r.value.edgeTable.props[k] in rdg.edgeTable.props
  {
    match Select(rdg.nodeTable.props, nodeNames)
    case Err(e) => Err(e)
    case Ok(nodeProps) =>
      match Select(rdg.edgeTable.props, edgeNames)
      case Err(e) => Err(e)
      case Ok(edgeProps) =>
        Ok(Rdg(rdg.topology, Table(rdg.nodeTable.numRows, nodeProps), Table(rdg.edgeTable.numRows, edgeProps)))
  }

  /** Requesting every stored property, in storage order, is the same as a full load. */
  lemma {:induction false} LoadSelectiveAll(rdg: Rdg)
    requires DistinctNames(rdg.nodeTable.props) && DistinctNames(rdg.edgeTable.props)
    ensures LoadSelective(rdg, Names(rdg.nodeTable.props), Names(rdg.edgeTable.props)) == Ok(rdg)
  {
    SelectAll(rdg.nodeTable.props);
    SelectAll(rdg.edgeTable.props);
  }
}
