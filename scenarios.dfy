/** Clients of the property graph that use only the contracts of its operations. */
module Scenarios {
  import opened Results
  import opened Tables
  import opened Topology
  import opened Rdgs
  import opened PropertyFileGraphs

  /** Writing a graph that passes the post-load check under a new name, then
      making a graph from that name, gives back the same topology and the same
      node and edge tables. */
  method WriteThenMake(g: PropertyFileGraph, store: RdgStore, name: string) returns (h: PropertyFileGraph)
    requires name !in store.rdgs
    requires Validate(g.Snapshot()).Pass?
    modifies g`file, store
    ensures fresh(h) && h.file == Some(name) && g.file == Some(name)
    ensures h.topology == g.topology && h.nodeTable == g.nodeTable && h.edgeTable == g.edgeTable
  {
    var w := g.WriteTo(store, name);
    var r := PropertyFileGraph.Make(store, name);
    h := r.value;
  }

  /** A three-node cycle: node 0 -> 1, node 1 -> 2, node 2 -> 0. */
  const Triangle: GraphTopology := GraphTopology(Some([1, 2, 3]), Some([1, 2, 0]))
  const Colour: Property := Property(Field("color", "int32"), [7, 8, 9])
  const Weight: Property := Property(Field("weight", "int64"), [1, 1, 2])

  /** A graph built in memory has no RDG to overwrite. */
  method InMemoryWriteFails()
  {
    var g := new PropertyFileGraph();
    var store := new RdgStore(map[]);
    var w := g.Write(store);
    assert w == Fail(InvalidState) && store.rdgs == map[];
  }

  /** The triangle with two node properties, built in memory; adding a name
      twice, a table that repeats a name, or a table of the wrong length is
      refused. */
  method BuildTriangle() returns (g: PropertyFileGraph)
    ensures fresh(g) && g.file == None
    ensures g.topology == Triangle && g.nodeTable == Table(3, [Colour, Weight]) && g.edgeTable == EmptyTable
  {
    g := new PropertyFileGraph();
    var s := g.SetTopology(Triangle);
    var a := g.AddNodeProperties(Table(3, [Colour, Weight]));
    assert a == Pass;
    assert g.nodeTable.props[0].field.name == "color";
    var b := g.AddNodeProperties(Table(3, [Colour]));
    assert b == Fail(InvalidArgument);
    var x := Property(Field("x", "int32"), [1, 2, 3]);
    var d := g.AddNodeProperties(Table(3, [x, x]));
    assert [x, x][0].field.name == [x, x][1].field.name;
    assert d == Fail(InvalidArgument);
    var c := g.AddEdgeProperties(Table(2, []));
    assert c == Fail(InvalidArgument);
  }

  /** The triangle written as "g1" and read back, whole and selectively. */
  method TriangleRoundTrip()
  {
    var g := BuildTriangle();
    var store := new RdgStore(map[]);
    var w := g.WriteTo(store, "g1");
    assert w == Pass && g.file == Some("g1");
    w := g.WriteTo(store, "g1");
    assert w == Fail(IoError);

    var stored := store.rdgs["g1"];
    assert Validate(stored).Pass?;
    var r := PropertyFileGraph.Make(store, "g1");
    var h := r.value;
    assert NumNodes(h.topology) == 3 && NumEdges(h.topology) == 3;
    assert h.NodeProperty(0) == [7, 8, 9];

    var props := stored.nodeTable.props;
    assert props == [Colour, Weight];
    assert Colour.field.name[0] != Weight.field.name[0];
    DistinctCountsOnce(props, 0);
    DistinctCountsOnce(props, 1);
    SelectiveLoadValidates(stored, ["weight", "color"], []);
    r := PropertyFileGraph.MakeSelective(store, "g1", ["weight", "color"], []);
    assert Names(r.value.nodeTable.props) == ["weight", "color"];

    assert |"size"| != |Colour.field.name| && |"size"| != |Weight.field.name|;
    CountNamedZero(props, "size");
    r := PropertyFileGraph.MakeSelective(store, "g1", ["size"], []);
    assert r == Err(InvalidArgument);

    r := PropertyFileGraph.MakeSelective(store, "g1", ["color", "color"], []);
    assert r == Err(InvalidArgument);
  }

  /** A stored graph whose last offset does not match its edge count is
      reported as corrupt, not as missing. */
  method CorruptStoredGraph()
  {
    var bad := Rdg(GraphTopology(Some([5]), Some([0])), EmptyTable, EmptyTable);
    var store := new RdgStore(map["bad" := bad]);
    var r := PropertyFileGraph.Make(store, "bad");
    assert r == Err(Corruption);
    r := PropertyFileGraph.MakeSelective(store, "bad", [], []);
    assert r == Err(Corruption);
  }

  /** After the topology is replaced by one with another node count, the node
      columns no longer fit it, and adding a column of the new count is
      refused rather than leaving columns of different lengths. */
  method AddAfterNewTopology()
  {
    var g := new PropertyFileGraph();
    var s := g.SetTopology(GraphTopology(Some([0]), Some([])));
    var a := g.AddNodeProperties(Table(1, [Property(Field("x", "int32"), [4])]));
    assert a == Pass && Uniform(g.nodeTable);
    assert Columns(g.nodeTable) == [[4]];
    s := g.SetTopology(GraphTopology(Some([0, 0]), Some([])));
    assert NumNodes(g.topology) == 2 && |g.nodeTable.props[0].column| == 1;
    var b := g.AddNodeProperties(Table(2, [Property(Field("y", "int32"), [5, 6])]));
    assert b == Fail(InvalidArgument) && |g.nodeTable.props| == 1;
  }

  /** Removing through the node view: a bad index is refused, a good one
      shifts the later columns down. */
  method RemoveThroughView()
  {
    var g := BuildTriangle();
    var v := g.NodePropertyView();
    var d := v.RemoveProperty(2);
    assert d == Fail(OutOfRange);
    d := v.RemoveProperty(0);
    assert d == Pass && g.NodeSchema() == [Weight.field];
  }
}
