/** A property graph backed by persistent storage: a topology, a node property
    table and an edge property table, plus the name of the RDG it was read from
    or last written to, if any. Graphs are made by loading (whole or
    selectively) from the store, or built in memory from the empty graph. */
module PropertyFileGraphs {
  import opened Results
  import opened Tables
  import opened Topology
  import opened Rdgs

  /** Whether the topology's arrays belong to the graph (loaded with it) or are
      shared with the caller of SetTopology, who must keep them alive while
      they are the graph's topology. */
  datatype Ownership = Owned | Borrowed

  /** The post-load sanity check. The header declares it without a body; it is
      taken to check CSR well-formedness, that every node (edge) column has one
      value per node (edge), and that property names are unique within each
      table, and to report corruption otherwise. */
  function Validate(rdg: Rdg): (r: Outcome)
    ensures r.Pass? <==> && WellFormed(rdg.topology)
                         && Consistent(rdg.nodeTable, NumNodes(rdg.topology))
                         && Consistent(rdg.edgeTable, NumEdges(rdg.topology))
    ensures r.Fail? ==> r.error == Corruption
  {
    if WellFormed(rdg.topology)
       && Consistent(rdg.nodeTable, NumNodes(rdg.topology))
       && Consistent(rdg.edgeTable, NumEdges(rdg.topology))
    then Pass
    else Fail(Corruption)
  }

  /** A successful selective load of a valid RDG passes the post-load check:
      selective Make never reports corruption for an RDG that a full Make
      accepts. */
  lemma SelectiveLoadValidates(rdg: Rdg, nodeNames: seq<string>, edgeNames: seq<string>)
    requires Validate(rdg).Pass?
    requires LoadSelective(rdg, nodeNames, edgeNames).Ok?
    ensures Validate(LoadSelective(rdg, nodeNames, edgeNames).value).Pass?
  {
    SelectPreservesConsistency(rdg.nodeTable, NumNodes(rdg.topology), nodeNames);
    SelectPreservesConsistency(rdg.edgeTable, NumEdges(rdg.topology), edgeNames);
  }

  /** The outcome of a table update `res` applied to a table that was `before`:
      on success the table becomes the new one, on failure it stays as it was
      and the error is reported. */
  predicate Applied(res: Result<Table>, before: Table, after: Table, r: Outcome) {
    match res
    case Ok(t) => after == t && r == Pass
    case Err(e) => after == before && r == Fail(e)
  }

  /** Which property table an operation addresses. */
  datatype Selector = Node | Edge

  class PropertyFileGraph {
    var nodeTable: Table
    var edgeTable: Table
    /** The RDG this graph was read from or last written to. */
    var file: Option<string>
    var topology: GraphTopology
    var ownership: Ownership

    /** An empty graph built in memory: no topology, no properties, no RDG. */
    constructor ()
      ensures nodeTable == EmptyTable && edgeTable == EmptyTable
      ensures topology == EmptyTopology && ownership == Owned
      ensures file == None
    {
      nodeTable, edgeTable := EmptyTable, EmptyTable;
      topology, ownership := EmptyTopology, Owned;
      file := None;
    }

    /** Adopts a loaded RDG and the handle it came from (private in the source;
        reached only through the Make factories). */
    constructor Adopt(handle: string, rdg: Rdg)
      ensures Snapshot() == rdg && file == Some(handle) && ownership == Owned
    {
      nodeTable, edgeTable := rdg.nodeTable, rdg.edgeTable;
      topology, ownership := rdg.topology, Owned;
      file := Some(handle);
    }

    /** What writing this graph stores. */
    function Snapshot(): Rdg
      reads this
    {
      Rdg(topology, nodeTable, edgeTable)
    }

    /** Makes a graph from a loaded RDG and its handle; an RDG that fails the
        post-load check yields an error and no graph. */
    static method MakeFromRdg(handle: string, rdg: Rdg) returns (r: Result<PropertyFileGraph>)
      ensures r.Err? <==> Validate(rdg).Fail?
      ensures r.Err? ==> r.error == Corruption
      ensures r.Ok? ==> fresh(r.value) && r.value.Snapshot() == rdg
      ensures r.Ok? ==> r.value.file == Some(handle) && r.value.ownership == Owned
    {
      if Validate(rdg).Fail? {
        return Err(Validate(rdg).error);
      }
      var g := new PropertyFileGraph.Adopt(handle, rdg);
      return Ok(g);
    }

    /** Makes a graph from the whole RDG stored under `name`. */
    static method Make(store: RdgStore, name: string) returns (r: Result<PropertyFileGraph>)
      ensures name !in store.rdgs ==> r == Err(IoError)
      ensures name in store.rdgs ==> (r.Err? <==> Validate(store.rdgs[name]).Fail?)
      ensures name in store.rdgs && r.Err? ==> r.error == Corruption
      ensures r.Ok? ==> fresh(r.value) && name in store.rdgs && r.value.Snapshot() == store.rdgs[name]
      ensures r.Ok? ==> r.value.file == Some(name) && r.value.ownership == Owned
    {
      if name !in store.rdgs {
        return Err(IoError);
      }
      r := MakeFromRdg(name, store.rdgs[name]);
    }

    /** Makes a graph from the RDG stored under `name`, loading only the named
        properties, in the order given. */
    static method MakeSelective(store: RdgStore, name: string, nodeNames: seq<string>, edgeNames: seq<string>)
      returns (r: Result<PropertyFileGraph>)
      ensures name !in store.rdgs ==> r == Err(IoError)
      ensures name in store.rdgs && LoadSelective(store.rdgs[name], nodeNames, edgeNames).Err? ==> r == Err(InvalidArgument)
      ensures name in store.rdgs && LoadSelective(store.rdgs[name], nodeNames, edgeNames).Ok? ==>
                (r.Err? <==> Validate(LoadSelective(store.rdgs[name], nodeNames, edgeNames).value).Fail?)
      ensures name in store.rdgs && LoadSelective(store.rdgs[name], nodeNames, edgeNames).Ok? && r.Err? ==>
                r.error == Corruption
      ensures r.Ok? ==> fresh(r.value) && name in store.rdgs
      ensures r.Ok? ==> r.value.Snapshot() == LoadSelective(store.rdgs[name], nodeNames, edgeNames).value
      ensures r.Ok? ==> Names(r.value.nodeTable.props) == nodeNames && Names(r.value.edgeTable.props) == edgeNames
      ensures r.Ok? ==> r.value.topology == store.rdgs[name].topology
      ensures r.Ok? ==> r.value.file == Some(name) && r.value.ownership == Owned
    {
      if name !in store.rdgs {
        return Err(IoError);
      }
      var loaded := LoadSelective(store.rdgs[name], nodeNames, edgeNames);
      if loaded.Err? {
        return Err(loaded.error);
      }
      r := MakeFromRdg(name, loaded.value);
    }

    /** Writes the graph to a new RDG called `name`; fails with io_error, and
        changes nothing, when that name already exists. On success the graph
        is associated with `name`. */
    method WriteTo(store: RdgStore, name: string) returns (r: Outcome)
      modifies this`file, store
      ensures name in old(store.rdgs) ==> r == Fail(IoError) && store.rdgs == old(store.rdgs) && file == old(file)
      ensures name !in old(store.rdgs) ==> r == Pass && store.rdgs == old(store.rdgs)[name := Snapshot()] && file == Some(name)
    {
      if name in store.rdgs {
        return Fail(IoError);
      }
      store.rdgs := store.rdgs[name := Snapshot()];
      file := Some(name);
      return Pass;
    }

    /** Overwrites the RDG this graph was read from or last written to; fails
        with invalid_state, and changes nothing, on a graph built in memory and
        never written. */
    method Write(store: RdgStore) returns (r: Outcome)
      modifies store
      ensures file.None? ==> r == Fail(InvalidState) && store.rdgs == old(store.rdgs)
      ensures file.Some? ==> r == Pass && store.rdgs == old(store.rdgs)[file.value := Snapshot()]
    {
      if file.None? {
        return Fail(InvalidState);
      }
      store.rdgs := store.rdgs[file.value := Snapshot()];
      return Pass;
    }

    /** The node schema: one field per node column, in column order. */
    function NodeSchema(): (s: seq<Field>)
      reads this
      ensures |s| == |nodeTable.props|
      ensures forall k :: 0 <= k < |s| ==> s[k] == nodeTable.props[k].field
    {
      Schema(nodeTable)
    }

    /** The edge schema: one field per edge column, in column order. */
    function EdgeSchema(): (s: seq<Field>)
      reads this
      ensures |s| == |edgeTable.props|
      ensures forall k :: 0 <= k < |s| ==> s[k] == edgeTable.props[k].field
    {
      Schema(edgeTable)
    }

    /** Column `i` of the node table, the one described by `NodeSchema()[i]`;
        like Arrow's `column(i)`, defined only for an index inside the schema. */
    function NodeProperty(i: int): (c: Column)
      reads this
      requires 0 <= i < |nodeTable.props|
      ensures Property(NodeSchema()[i], c) == nodeTable.props[i]
    {
      nodeTable.props[i].column
    }

    /** Column `i` of the edge table, the one described by `EdgeSchema()[i]`. */
    function EdgeProperty(i: int): (c: Column)
      reads this
      requires 0 <= i < |edgeTable.props|
      ensures Property(EdgeSchema()[i], c) == edgeTable.props[i]
    {
      edgeTable.props[i].column
    }

    /** The node columns in schema order. */
    function NodeProperties(): (cs: seq<Column>)
      reads this
      ensures |cs| == |NodeSchema()|
      ensures forall k :: 0 <= k < |cs| ==> Property(NodeSchema()[k], cs[k]) == nodeTable.props[k]
    {
      Columns(nodeTable)
    }

    /** The edge columns in schema order. */
    function EdgeProperties(): (cs: seq<Column>)
      reads this
      ensures |cs| == |EdgeSchema()|
      ensures forall k :: 0 <= k < |cs| ==> Property(EdgeSchema()[k], cs[k]) == edgeTable.props[k]
    {
      Columns(edgeTable)
    }

    /** The graph's topology: the one that writing the graph stores. */
    function GetTopology(): (t: GraphTopology)
      reads this
      ensures t == Snapshot().topology
      ensures NumNodes(t) == NumNodes(topology) && NumEdges(t) == NumEdges(topology)
    {
      topology
    }

    /** Appends the columns of `table` to the node table. Refused with
        invalid_argument, leaving the table as it was, when a node column
        already present does not have one value per node (the topology was
        replaced since), when the table's row count is not the node count,
        when the table repeats a name within itself, or when one of its names
        is already used. */
    method AddNodeProperties(table: Table) returns (r: Outcome)
      requires Uniform(table)
      modifies this`nodeTable
      ensures Applied(AddProperties(old(nodeTable), NumNodes(topology), table), old(nodeTable), nodeTable, r)
    {
      var res := AddProperties(nodeTable, NumNodes(topology), table);
      if res.Err? {
        return Fail(res.error);
      }
      nodeTable := res.value;
      return Pass;
    }

    /** The same for the edge table, at the edge count. */
    method AddEdgeProperties(table: Table) returns (r: Outcome)
      requires Uniform(table)
      modifies this`edgeTable
      ensures Applied(AddProperties(old(edgeTable), NumEdges(topology), table), old(edgeTable), edgeTable, r)
    {
      var res := AddProperties(edgeTable, NumEdges(topology), table);
      if res.Err? {
        return Fail(res.error);
      }
      edgeTable := res.value;
      return Pass;
    }

    /** Removes node property `i`; out_of_range, leaving the table as it was,
        when `i` is not a column index. */
    method RemoveNodeProperty(i: int) returns (r: Outcome)
      modifies this`nodeTable
      ensures Applied(RemoveProperty(old(nodeTable), i), old(nodeTable), nodeTable, r)
    {
      var res := RemoveProperty(nodeTable, i);
      if res.Err? {
        return Fail(res.error);
      }
      nodeTable := res.value;
      return Pass;
    }

    method RemoveEdgeProperty(i: int) returns (r: Outcome)
      modifies this`edgeTable
      ensures Applied(RemoveProperty(old(edgeTable), i), old(edgeTable), edgeTable, r)
    {
      var res := RemoveProperty(edgeTable, i);
      if res.Err? {
        return Fail(res.error);
      }
      edgeTable := res.value;
      return Pass;
    }

    /** Replaces the topology with the caller's, which the graph then borrows;
        nothing is re-checked. */
    method SetTopology(t: GraphTopology) returns (r: Outcome)
      modifies this`topology, this`ownership
      ensures r == Pass && topology == t && ownership == Borrowed
    {
      topology, ownership := t, Borrowed;
      return Pass;
    }

    function NodePropertyView(): (v: PropertyView)
      ensures v.g == this && v.which == Node
    {
      PropertyView(this, Node)
    }

    function EdgePropertyView(): (v: PropertyView)
      ensures v.g == this && v.which == Edge
    {
      PropertyView(this, Edge)
    }
  }

  /** A uniform handle on either the node or the edge properties of a graph. It
      holds no state of its own: each operation goes to the graph's node or
      edge counterpart, as `which` says. */
  datatype PropertyView = PropertyView(g: PropertyFileGraph, which: Selector) {

    /** The schema of the bound table. */
    function Schema(): (s: seq<Field>)
      reads g
      ensures s == Tables.Schema(if which == Node then g.nodeTable else g.edgeTable)
    {
      if which == Node then g.NodeSchema() else g.EdgeSchema()
    }

    /** Column `i` of the bound table, described by `Schema()[i]`. */
    function Property(i: int): (c: Column)
      reads g
      requires 0 <= i < |Schema()|
      ensures Tables.Property(Schema()[i], c) == (if which == Node then g.nodeTable else g.edgeTable).props[i]
    {
      if which == Node then g.NodeProperty(i) else g.EdgeProperty(i)
    }

    /** The columns of the bound table in schema order. */
    function Properties(): (cs: seq<Column>)
      reads g
      ensures cs == Columns(if which == Node then g.nodeTable else g.edgeTable)
    {
      if which == Node then g.NodeProperties() else g.EdgeProperties()
    }

    method AddProperties(table: Table) returns (r: Outcome)
      requires Uniform(table)
      modifies g`nodeTable, g`edgeTable
      ensures which == Node ==> g.edgeTable == old(g.edgeTable)
      ensures which == Node ==> Applied(Tables.AddProperties(old(g.nodeTable), NumNodes(g.topology), table), old(g.nodeTable), g.nodeTable, r)
      ensures which == Edge ==> g.nodeTable == old(g.nodeTable)
      ensures which == Edge ==> Applied(Tables.AddProperties(old(g.edgeTable), NumEdges(g.topology), table), old(g.edgeTable), g.edgeTable, r)
    {
      if which == Node {
        r := g.AddNodeProperties(table);
      } else {
        r := g.AddEdgeProperties(table);
      }
    }

    method RemoveProperty(i: int) returns (r: Outcome)
      modifies g`nodeTable, g`edgeTable
      ensures which == Node ==> g.edgeTable == old(g.edgeTable)
      ensures which == Node ==> Applied(Tables.RemoveProperty(old(g.nodeTable), i), old(g.nodeTable), g.nodeTable, r)
      ensures which == Edge ==> g.nodeTable == old(g.nodeTable)
      ensures which == Edge ==> Applied(Tables.RemoveProperty(old(g.edgeTable), i), old(g.edgeTable), g.edgeTable, r)
    {
      if which == Node {
        r := g.RemoveNodeProperty(i);
      } else {
        r := g.RemoveEdgeProperty(i);
      }
    }
  }

  /** The accessors agree with one another: the i-th of the listed properties
      is property i, and there is one column per schema field. */
  lemma AccessorsAgree(g: PropertyFileGraph)
    ensures |g.NodeProperties()| == |g.NodeSchema()| && |g.EdgeProperties()| == |g.EdgeSchema()|
    ensures forall i :: 0 <= i < |g.NodeSchema()| ==> g.NodeProperties()[i] == g.NodeProperty(i)
    ensures forall i :: 0 <= i < |g.EdgeSchema()| ==> g.EdgeProperties()[i] == g.EdgeProperty(i)
  {
  }

  /** The node view reads exactly what the node accessors read. */
  lemma NodeViewForwards(g: PropertyFileGraph)
    ensures g.NodePropertyView().Schema() == g.NodeSchema()
    ensures g.NodePropertyView().Properties() == g.NodeProperties()
    ensures forall i :: 0 <= i < |g.NodeSchema()| ==> g.NodePropertyView().Property(i) == g.NodeProperty(i)
  {
  }

  /** The edge view reads exactly what the edge accessors read. */
  lemma EdgeViewForwards(g: PropertyFileGraph)
    ensures g.EdgePropertyView().Schema() == g.EdgeSchema()
    ensures g.EdgePropertyView().Properties() == g.EdgeProperties()
    ensures forall i :: 0 <= i < |g.EdgeSchema()| ==> g.EdgePropertyView().Property(i) == g.EdgeProperty(i)
  {
  }

  /** In a graph whose state passes the post-load check, every property read
      through a view has one value per node (node view) or per edge (edge view). */
  lemma ViewColumnsMatchTopology(v: PropertyView, i: int)
    requires Validate(v.g.Snapshot()).Pass?
    requires 0 <= i < |v.Schema()|
    ensures |v.Property(i)| == if v.which == Node then NumNodes(v.g.topology) else NumEdges(v.g.topology)
  {
  }
}
