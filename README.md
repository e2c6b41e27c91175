# PropertyFileGraph in Dafny

A model of the property-graph container of Katana/Galois
(`galois::graphs::PropertyFileGraph`). It covers three parts:

- `GraphTopology`: adjacency in CSR form.
- The graph itself: node and edge property tables, a topology, and the handle
  of the RDG (the stored graph) it was read from.
- `PropertyView`: a binding that sends five operations to either the node or
  the edge methods of a graph.

Files and modules:

- `results.dfy`, module `Results`. The error kinds and the `Option`, `Result`
  and `Outcome` wrappers. `Outcome` stands for `Result<void>`.
- `tables.dfy`, module `Tables`. The part of an Arrow table that the graph
  uses. A table is a row count plus an ordered sequence of named columns. This
  module holds the specification functions for adding columns, removing a
  column, and selecting columns by name.
- `topology.dfy`, module `Topology`. `GraphTopology` with `NumNodes` and
  `NumEdges`, and a `WellFormed` predicate for CSR. It also proves what a
  well-formed CSR means: edge ranges, neighbours and the degree sum.
- `rdgs.dfy`, module `Rdgs`. The backing store as the graph sees it: a class
  mapping each existing RDG name to the graph stored under it. It also holds
  the selective load.
- `property_file_graph.dfy`, module `PropertyFileGraphs`. The
  `PropertyFileGraph` class, the `PropertyView` datatype and the post-load
  check `Validate`.
  - The fields that the source changes in place are class fields:
    `nodeTable`, `edgeTable`, `file`, `topology`, plus an ownership tag.
  - The mutators are methods with `modifies` frames. Each one's `ensures`
    ties the new table to a specification function from `Tables`.
  - The read-only accessors are functions that read `this`, so they cannot
    change the graph.
- `scenarios.dfy`, module `Scenarios`. Clients that use only the
  contracts:
  - writing under a new name and loading it back gives the same graph;
  - a three-node cycle is built in memory, written, and read back whole and
    selectively;
  - the error cases.

This model is written against the public header `PropertyFileGraph.h`. The
bodies of `Validate`, `Add*Properties`, `Remove*Property`, `SetTopology` and
both `Write`s live in the implementation file and are not modelled line by
line: the model commits them to what their signatures and doc comments
promise. What goes beyond that is an assumption of the model:

- `Validate` checks three things: the topology is well-formed CSR; every
  node column has `NumNodes` values and every edge column has `NumEdges`
  values; and property names are unique within each table. Otherwise it
  reports `Corruption`. The edge-range and degree lemmas about
  `WellFormed` describe this assumed invariant, not code in the header.
- `AddNodeProperties` and `AddEdgeProperties` refuse with `InvalidArgument`
  in four cases:
  - a column already in the node (edge) table does not have one value per
    node (edge), which happens when `SetTopology` changed the count;
  - the table's row count is not the node (edge) count;
  - the table repeats a name within itself;
  - one of its names is already in the schema.

  So a successful add leaves an Arrow-shaped table: every column has the
  node (edge) count of values, and no two properties share a name. The table given is an Arrow table, so its
  columns all have its row count (`Uniform`). On success the new columns
  follow the old ones in the table's order.
- `RemoveNodeProperty` and `RemoveEdgeProperty` refuse an index outside the
  schema with `OutOfRange`. The header does not name this error; the model
  gives it a code of its own.
- `Write()` without an associated RDG fails with `InvalidState`. The header
  calls this error "invalid".
- `Write(name)` associates the graph with `name` on success. As a result,
  `Write()` on a graph that was built in memory and then written under a name
  overwrites that RDG instead of failing. The header (line 121) calls `Write()`
  invalid "if this was not read (but rather constructed in memory)"; the model
  reads that as "neither read nor written yet".
- Selective `Make`: the header says it fails with invalid_argument when "there
  are multiple properties with the same name". The model refuses both
  readings with `InvalidArgument`: a name repeated in the request list, and a
  requested name that matches more than one stored property.

## Model

| member | source | states |
|---|---|---|
| Topology.NumNodes | libgalois/include/galois/graphs/PropertyFileGraph.h:20 | the node count is the length of `out_indices`, and 0 when that array is absent |
| Topology.NumEdges | libgalois/include/galois/graphs/PropertyFileGraph.h:22 | the edge count is the length of `out_dests`, and 0 when that array is absent |
| Topology.EdgeRangeWithin | libgalois/include/galois/graphs/PropertyFileGraph.h:14-18 | in a well-formed CSR topology every node's edge range `[begin, end)` is ordered and lies inside `out_dests` |
| Topology.Neighbors | libgalois/include/galois/graphs/PropertyFileGraph.h:14-18 | a node's neighbour list has `end - begin` entries and each is a node of the graph |
| Topology.DegreesCoverEdges | libgalois/include/galois/graphs/PropertyFileGraph.h:14-18 | the out-degrees of all nodes add up to the edge count |
| Tables.AddProperties | libgalois/include/galois/graphs/PropertyFileGraph.h:150-151 | adding fails with invalid_argument exactly when an existing column does not have the expected row count, the added table's row count differs, the added table repeats a name, or one of its names is already used; on success the schema and the columns are the old ones followed by the table's, in order, and the result has the expected row count with every column that long |
| Tables.AddPreservesConsistency | libgalois/include/galois/graphs/PropertyFileGraph.h:150-151 | a successful add to a table with unique names gives a consistent table: every column at the expected row count and all names unique, for any added table |
| Tables.RemoveProperty | libgalois/include/galois/graphs/PropertyFileGraph.h:153-154 | removal fails with out_of_range exactly when `i` is outside the schema; otherwise there is one column fewer, earlier columns stay and later ones move down by one |
| Tables.RemovePreservesConsistency | libgalois/include/galois/graphs/PropertyFileGraph.h:153-154 | removal keeps row counts and unique names |
| Tables.RemoveThenInsert | libgalois/include/galois/graphs/PropertyFileGraph.h:153-154 | putting the removed column back at its index restores the table exactly |
| Tables.Find | libgalois/include/galois/graphs/PropertyFileGraph.h:104-105 | a name resolves exactly when one stored property carries it, and then to that property; a missing or ambiguous name is invalid_argument |
| Tables.Select | libgalois/include/galois/graphs/PropertyFileGraph.h:98-109 | selection succeeds exactly when no name is requested twice and every requested name matches one stored property; otherwise invalid_argument; the result's names are the requested list in its order, and each entry is the stored property of that name |
| Tables.SelectAll | libgalois/include/galois/graphs/PropertyFileGraph.h:98-109 | with unique stored names, selecting every name in storage order returns the whole table |
| Tables.SelectPreservesConsistency | libgalois/include/galois/graphs/PropertyFileGraph.h:98-109 | a successful selection from a consistent table gives a consistent table |
| Rdgs.LoadSelective | libgalois/include/galois/graphs/PropertyFileGraph.h:98-109 | a selective load keeps the topology, gives each table exactly the requested names in the requested order, and fails with invalid_argument exactly when some name is requested twice, missing or ambiguous |
| Rdgs.LoadSelectiveAll | libgalois/include/galois/graphs/PropertyFileGraph.h:94-109 | a selective load of every stored property, in storage order, equals the full load |
| PropertyFileGraphs.Validate | libgalois/include/galois/graphs/PropertyFileGraph.h:40-41 | (assumed check) passes exactly when the topology is well-formed CSR, every node or edge column has one value per node or edge, and names are unique within each table; failing is corruption |
| PropertyFileGraphs.SelectiveLoadValidates | libgalois/include/galois/graphs/PropertyFileGraph.h:98-109 | a successful selective load of a valid RDG passes the post-load check, so selective Make reports corruption only for a stored graph a full Make also rejects |
| PropertyFileGraphs.PropertyFileGraph.constructor | libgalois/include/galois/graphs/PropertyFileGraph.h:87 | the default graph has empty tables, no topology and no RDG handle |
| PropertyFileGraphs.PropertyFileGraph.Adopt | libgalois/include/galois/graphs/PropertyFileGraph.h:38 | the private constructor takes over the RDG's topology and tables and its handle |
| PropertyFileGraphs.PropertyFileGraph.MakeFromRdg | libgalois/include/galois/graphs/PropertyFileGraph.h:89-92 | making from a loaded RDG fails exactly when the post-load check fails; on success the fresh graph holds the RDG as given and its handle |
| PropertyFileGraphs.PropertyFileGraph.Make | libgalois/include/galois/graphs/PropertyFileGraph.h:94-96 | an unknown name is an io_error; a stored RDG that fails the check is corruption; otherwise the fresh graph holds the whole stored RDG and is associated with `name` |
| PropertyFileGraphs.PropertyFileGraph.MakeSelective | libgalois/include/galois/graphs/PropertyFileGraph.h:98-109 | an unknown name is an io_error; a repeated, missing or ambiguous requested property is invalid_argument; a loaded selection that fails the check is corruption; on success the node and edge schemas list exactly the requested names in the requested order, over the stored topology |
| PropertyFileGraphs.PropertyFileGraph.WriteTo | libgalois/include/galois/graphs/PropertyFileGraph.h:111-114 | writing to an existing name fails with io_error and changes nothing; otherwise the store gains the graph under `name` and the graph is associated with it |
| PropertyFileGraphs.PropertyFileGraph.Write | libgalois/include/galois/graphs/PropertyFileGraph.h:116-122 | without an associated RDG it fails and changes nothing; otherwise it overwrites that RDG with the graph |
| PropertyFileGraphs.PropertyFileGraph.NodeSchema | libgalois/include/galois/graphs/PropertyFileGraph.h:124-126 | the node schema has one field per node column, the k-th being that column's field |
| PropertyFileGraphs.PropertyFileGraph.EdgeSchema | libgalois/include/galois/graphs/PropertyFileGraph.h:128-130 | the edge schema has one field per edge column, the k-th being that column's field |
| PropertyFileGraphs.PropertyFileGraph.NodeProperty | libgalois/include/galois/graphs/PropertyFileGraph.h:132-134 | node column `i` is the column described by the i-th field of the node schema |
| PropertyFileGraphs.PropertyFileGraph.EdgeProperty | libgalois/include/galois/graphs/PropertyFileGraph.h:136-138 | edge column `i` is the column described by the i-th field of the edge schema |
| PropertyFileGraphs.PropertyFileGraph.GetTopology | libgalois/include/galois/graphs/PropertyFileGraph.h:140 | returns the graph's topology, the one writing the graph stores, with the same node and edge counts |
| PropertyFileGraphs.PropertyFileGraph.NodeProperties | libgalois/include/galois/graphs/PropertyFileGraph.h:142-144 | the node columns, one per schema field and in schema order |
| PropertyFileGraphs.PropertyFileGraph.EdgeProperties | libgalois/include/galois/graphs/PropertyFileGraph.h:146-148 | the edge columns, one per schema field and in schema order |
| PropertyFileGraphs.PropertyView.Schema | libgalois/include/galois/graphs/PropertyFileGraph.h:67 | the view's schema is the schema of the node table (node view) or the edge table (edge view) |
| PropertyFileGraphs.PropertyView.Property | libgalois/include/galois/graphs/PropertyFileGraph.h:69-71 | column `i` through the view is the bound table's column described by the view's i-th schema field |
| PropertyFileGraphs.PropertyView.Properties | libgalois/include/galois/graphs/PropertyFileGraph.h:73-75 | the view's columns are the bound table's columns in schema order |
| PropertyFileGraphs.PropertyFileGraph.AddNodeProperties | libgalois/include/galois/graphs/PropertyFileGraph.h:150 | the node table becomes `Tables.AddProperties` of the old one at the node count, or stays unchanged with the error reported; nothing else changes |
| PropertyFileGraphs.PropertyFileGraph.AddEdgeProperties | libgalois/include/galois/graphs/PropertyFileGraph.h:151 | the same for the edge table at the edge count |
| PropertyFileGraphs.PropertyFileGraph.RemoveNodeProperty | libgalois/include/galois/graphs/PropertyFileGraph.h:153 | the node table becomes `Tables.RemoveProperty` of the old one, or stays unchanged with out_of_range; nothing else changes |
| PropertyFileGraphs.PropertyFileGraph.RemoveEdgeProperty | libgalois/include/galois/graphs/PropertyFileGraph.h:154 | the same for the edge table |
| PropertyFileGraphs.PropertyFileGraph.SetTopology | libgalois/include/galois/graphs/PropertyFileGraph.h:178 | the topology becomes the caller's, now borrowed; tables and handle are untouched |
| PropertyFileGraphs.PropertyFileGraph.NodePropertyView | libgalois/include/galois/graphs/PropertyFileGraph.h:156-165 | the node view is bound to this graph and to the node operations |
| PropertyFileGraphs.PropertyFileGraph.EdgePropertyView | libgalois/include/galois/graphs/PropertyFileGraph.h:167-176 | the edge view is bound to this graph and to the edge operations |
| PropertyFileGraphs.PropertyView.AddProperties | libgalois/include/galois/graphs/PropertyFileGraph.h:77-80 | through a node view, the result and effect are those of `AddNodeProperties` and the edge table is untouched; through an edge view, the same with node and edge swapped |
| PropertyFileGraphs.PropertyView.RemoveProperty | libgalois/include/galois/graphs/PropertyFileGraph.h:82-84 | through a node view, the result and effect are those of `RemoveNodeProperty`; through an edge view, those of `RemoveEdgeProperty` |
| PropertyFileGraphs.AccessorsAgree | libgalois/include/galois/graphs/PropertyFileGraph.h:124-148 | `NodeProperties()` and `EdgeProperties()` have one column per schema field, and their i-th entry is `NodeProperty(i)` or `EdgeProperty(i)` |
| PropertyFileGraphs.NodeViewForwards | libgalois/include/galois/graphs/PropertyFileGraph.h:67-75 | the node view's `schema`, `Properties` and every `Property(i)` equal `node_schema`, `NodeProperties` and `NodeProperty(i)` |
| PropertyFileGraphs.EdgeViewForwards | libgalois/include/galois/graphs/PropertyFileGraph.h:167-176 | the edge view's `schema`, `Properties` and every `Property(i)` equal `edge_schema`, `EdgeProperties` and `EdgeProperty(i)` |
| PropertyFileGraphs.ViewColumnsMatchTopology | libgalois/include/galois/graphs/PropertyFileGraph.h:55-85 | in a graph that passes the check, a column read through the node (edge) view has one value per node (edge) |
| Scenarios.WriteThenMake | libgalois/include/galois/graphs/PropertyFileGraph.h:94-114 | writing a valid graph under a new name and making a graph from that name gives the same topology and tables |

## Left out

- PropertyFileGraphs.PropertyFileGraph.WriteTo: the only I/O failure modelled is a name that already exists. The header's "for instance" allows others, which the backing store decides.
- PropertyFileGraphs.PropertyFileGraph.WriteTo: does not re-check the tables against the topology before storing. A graph whose topology was replaced by `SetTopology` can be stored and then rejected by `Make` with `Corruption`. It is not refused because the header names no write error for this case.
- PropertyFileGraphs.PropertyFileGraph.Write: does not re-check the tables against the topology before overwriting, for the same reason as `WriteTo`.
- PropertyFileGraphs.PropertyFileGraph.Write: never fails once a handle is present. Failures of the overwrite itself belong to the backing store.
- PropertyFileGraphs.PropertyFileGraph.Make: the only load failure modelled is an unknown name. Storage read errors are not modelled.
- PropertyFileGraphs.PropertyFileGraph.SetTopology: always succeeds. Any failure to release the old topology's storage is inside the RDG, which is not part of this model.
- PropertyFileGraphs.Validate: its body is not in the header. The check it makes here (CSR well-formedness, column lengths and unique property names per table) is an assumption of the model.
- The RDG (`tsuba::RDG`, `RDGFile`, `DoWrite`) is not part of this model beyond "name to stored graph". Partitions, transactions and the on-disk layout are left out.
- What `Write()` stores for properties that a selective `Make` did not load is decided inside the RDG. The model stores the graph as it is.
- Arrow is reduced to names, type names and integer columns. Chunking, element types and `shared_ptr` aliasing of columns are left out.
- The topology's ownership is only a tag (`Owned`, `Borrowed`). Lifetimes of borrowed buffers cannot be observed here.
- Releasing the RDG handle when the graph is destroyed is left out: Dafny has no destructors.
- `num_nodes()` and `num_edges()` return `uint64_t`. The model uses unbounded lengths, since an Arrow array's length always fits.
- `NodeProperty(i)` and `EdgeProperty(i)` require `i` to be inside the schema: Arrow's `column(i)` does not check it.
- Concurrency: the source promises nothing beyond single-threaded use.
