/** Property tables: the part of an Arrow table the property graph relies on.
    A table has a row count and an ordered sequence of named columns; the
    schema is the sequence of their fields. Chunking, element types and
    shared ownership of columns are not modelled. */
module Tables {
  import opened Results

  /** An element of a column; `int` stands in for every Arrow element type. */
  type Value = int

  /** A schema entry: the property's name and the name of its Arrow data type. */
  datatype Field = Field(name: string, dataType: string)

  /** The values of one property, one per row. */
  type Column = seq<Value>

  /** A named column. */
  datatype Property = Property(field: Field, column: Column)

  /** A table: its declared row count and its properties in schema order. */
  datatype Table = Table(numRows: nat, props: seq<Property>)

  const EmptyTable: Table := Table(0, [])

  /** The schema of `t`: its fields in column order. */
  function Schema(t: Table): (s: seq<Field>)
    ensures |s| == |t.props|
    ensures forall k :: 0 <= k < |s| ==> s[k] == t.props[k].field
  {
    seq(|t.props|, k requires 0 <= k < |t.props| => t.props[k].field)
  }

  /** The columns of `t` in schema order. */
  function Columns(t: Table): (cs: seq<Column>)
    ensures |cs| == |t.props|
    ensures forall k :: 0 <= k < |cs| ==> cs[k] == t.props[k].column
  {
    seq(|t.props|, k requires 0 <= k < |t.props| => t.props[k].column)
  }

  /** The names of `ps` in order. */
  function Names(ps: seq<Property>): (ns: seq<string>)
    ensures |ns| == |ps|
    ensures forall k :: 0 <= k < |ns| ==> ns[k] == ps[k].field.name
  {
    seq(|ps|, k requires 0 <= k < |ps| => ps[k].field.name)
  }

  /** Every column of `ps` holds `rows` values. */
  predicate ColumnsHaveLength(ps: seq<Property>, rows: nat) {
    forall k :: 0 <= k < |ps| ==> |ps[k].column| == rows
  }

  /** Every column of `t` is as long as the table's declared row count, as in
      any Arrow table. */
  predicate Uniform(t: Table) {
    ColumnsHaveLength(t.props, t.numRows)
  }

  /** No two properties of `ps` share a name. */
  predicate DistinctNames(ps: seq<Property>) {
    forall j, k :: 0 <= j < k < |ps| ==> ps[j].field.name != ps[k].field.name
  }

  /** A table as the graph keeps it: every column has the row count the
      topology expects, and names are unique. */
  predicate Consistent(t: Table, rows: nat) {
    ColumnsHaveLength(t.props, rows) && DistinctNames(t.props)
  }

  /** No name occurs twice in `names`. */
  predicate NoRepeats(names: seq<string>) {
    forall j, k :: 0 <= j < k < |names| ==> names[j] != names[k]
  }

  /** Whether some property of `ps` is called `name`. */
  predicate HasName(ps: seq<Property>, name: string) {
    exists k :: 0 <= k < |ps| && ps[k].field.name == name
  }

  // ---------------------------------------------------------------------------
  // Adding and removing columns

  /** Appending the columns of `u` to `t`, where the graph expects `rows` rows:
      refused with invalid_argument when a column already in `t` does not
      hold `rows` values (the topology was replaced since), when `u` has
      another row count, repeats a name within itself, or has a name already
      in `t`; otherwise `u`'s columns follow `t`'s, in `u`'s order, and the
      result is a table of `rows` rows. */
  function AddProperties(t: Table, rows: nat, u: Table): (r: Result<Table>)
    requires Uniform(u)
    ensures r.Err? ==> r.error == InvalidArgument
    ensures r.Err? <==> || !ColumnsHaveLength(t.props, rows)
                        || u.numRows != rows
                        || !DistinctNames(u.props)
                        || exists k :: 0 <= k < |u.props| && HasName(t.props, u.props[k].field.name)
    ensures r.Ok? ==> Schema(r.value) == Schema(t) + Schema(u) && Columns(r.value) == Columns(t) + Columns(u)
    ensures r.Ok? ==> r.value.numRows == rows && Uniform(r.value)
  {
    if !ColumnsHaveLength(t.props, rows) then Err(InvalidArgument)
    else if u.numRows != rows then Err(InvalidArgument)
    else if !DistinctNames(u.props) then Err(InvalidArgument)
    else if exists k :: 0 <= k < |u.props| && HasName(t.props, u.props[k].field.name) then Err(InvalidArgument)
    else Ok(Table(rows, t.props + u.props))
  }

  /** Removing the column at position `i`: out_of_range unless `0 <= i < |schema|`;
      otherwise the later columns move down by one. */
  function RemoveProperty(t: Table, i: int): (r: Result<Table>)
    ensures r.Err? <==> !(0 <= i < |t.props|)
    ensures r.Err? ==> r.error == OutOfRange
    ensures r.Ok? ==> r.value.numRows == t.numRows && |r.value.props| == |t.props| - 1
    ensures r.Ok? ==> forall k :: 0 <= k < |r.value.props| ==>
                        r.value.props[k] == if k < i then t.props[k] else t.props[k + 1]
  {
    if 0 <= i < |t.props| then Ok(Table(t.numRows, t.props[..i] + t.props[i + 1..]))
    else Err(OutOfRange)
  }

  /** Inserting `p` at position `i`; the reference inverse of RemoveProperty. */
  function InsertProperty(t: Table, i: nat, p: Property): Table
    requires i <= |t.props|
  {
    Table(t.numRows, t.props[..i] + [p] + t.props[i..])
  }

  /** A successful add to a table with unique names gives a consistent table:
      every column has the expected length and the names stay unique. */
  lemma AddPreservesConsistency(t: Table, rows: nat, u: Table)
    requires DistinctNames(t.props) && Uniform(u)
    requires AddProperties(t, rows, u).Ok?
    ensures Consistent(AddProperties(t, rows, u).value, rows)
  {
    var r := AddProperties(t, rows, u).value;
    assert r.props == t.props + u.props;
    forall j, k | 0 <= j < k < |r.props|
      ensures r.props[j].field.name != r.props[k].field.name
    {
      if k >= |t.props| && j < |t.props| {
        var n := u.props[k - |t.props|].field.name;
        assert !HasName(t.props, n);
        assert r.props[j] == t.props[j] && r.props[k].field.name == n;
      } else if j >= |t.props| {
        assert r.props[j] == u.props[j - |t.props|] && r.props[k] == u.props[k - |t.props|];
      }
    }
  }

  /** Removing keeps a consistent table consistent. */
  lemma RemovePreservesConsistency(t: Table, rows: nat, i: int)
    requires Consistent(t, rows) && RemoveProperty(t, i).Ok?
    ensures Consistent(RemoveProperty(t, i).value, rows)
  {
    var r := RemoveProperty(t, i).value;
    forall j, k | 0 <= j < k < |r.props|
      ensures r.props[j].field.name != r.props[k].field.name
    {
      var j' := if j < i then j else j + 1;
      var k' := if k < i then k else k + 1;
      assert r.props[j] == t.props[j'] && r.props[k] == t.props[k'];
    }
  }

  /** Putting a removed column back where it was restores the table. */
  lemma RemoveThenInsert(t: Table, i: int)
    requires 0 <= i < |t.props|
    ensures RemoveProperty(t, i).Ok?
    ensures InsertProperty(RemoveProperty(t, i).value, i, t.props[i]) == t
  {
    var r := RemoveProperty(t, i).value;
    assert r.props[..i] == t.props[..i];
    assert r.props[i..] == t.props[i + 1..];
    assert t.props == t.props[..i] + [t.props[i]] + t.props[i + 1..];
  }

  // ---------------------------------------------------------------------------
  // Selective loading

  /** How many properties of `ps` are called `name`. */
  function CountNamed(ps: seq<Property>, name: string): nat
  {
    if ps == [] then 0
    else (if ps[0].field.name == name then 1 else 0) + CountNamed(ps[1..], name)
  }

  /** No property is called `name` exactly when none is counted. */
  lemma {:induction false} CountNamedZero(ps: seq<Property>, name: string)
    ensures CountNamed(ps, name) == 0 <==> !HasName(ps, name)
  {
    if ps != [] {
      CountNamedZero(ps[1..], name);
      if HasName(ps[1..], name) {
        var k :| 0 <= k < |ps[1..]| && ps[1..][k].field.name == name;
        assert ps[k + 1].field.name == name;
      }
      if HasName(ps, name) && ps[0].field.name != name {
        var k :| 0 <= k < |ps| && ps[k].field.name == name;
        assert ps[1..][k - 1].field.name == name;
      }
    }
  }

  /** The property of `ps` called `name`: invalid_argument when there is none,
      or when more than one property carries that name. */
  function Find(ps: seq<Property>, name: string): (r: Result<Property>)
    ensures r.Ok? <==> CountNamed(ps, name) == 1
    ensures r.Err? ==> r.error == InvalidArgument
    ensures r.Ok? ==> r.value.field.name == name
    ensures r.Ok? ==> forall k :: 0 <= k < |ps| && ps[k].field.name == name ==> ps[k] == r.value
    ensures r.Ok? ==> exists k :: 0 <= k < |ps| && ps[k] == r.value
  {
    if ps == [] then Err(InvalidArgument)
    else if ps[0].field.name == name then
      CountNamedZero(ps[1..], name);
      if CountNamed(ps[1..], name) == 0 then
        assert forall k :: 1 <= k < |ps| ==> ps[k] == ps[1..][k - 1];
        Ok(ps[0])
      else Err(InvalidArgument)
    else
      var r := Find(ps[1..], name);
      if r.Ok? then
        assert forall k :: 1 <= k < |ps| ==> ps[k] == ps[1..][k - 1];
        r
      else r
  }

  /** The properties of `ps` called `names`, in the order of `names`. Fails with
      invalid_argument when a name is requested twice, is missing, or matches
      more than one property. */
  function Select(ps: seq<Property>, names: seq<string>): (r: Result<seq<Property>>)
    ensures r.Ok? <==> NoRepeats(names) && forall k :: 0 <= k < |names| ==> CountNamed(ps, names[k]) == 1
    ensures r.Err? ==> r.error == InvalidArgument
    ensures r.Ok? ==> Names(r.value) == names
    ensures r.Ok? ==> forall k :: 0 <= k < |names| ==> r.value[k] in ps
    ensures r.Ok? ==> forall k, j :: 0 <= k < |names| && 0 <= j < |ps| && ps[j].field.name == names[k] ==> ps[j] == r.value[k]
  {
    if names == [] then Ok([])
    else if names[0] in names[1..] then
      assert !NoRepeats(names) by {
        var k :| 0 <= k < |names[1..]| && names[1..][k] == names[0];
        assert names[k + 1] == names[0];
      }
      Err(InvalidArgument)
    else
      assert NoRepeats(names) <==> NoRepeats(names[1..]) by {
        assert forall k :: 1 <= k < |names| ==> names[k] == names[1..][k - 1];
      }
      match Find(ps, names[0])
      case Err(e) => Err(e)
      case Ok(p) =>
        match Select(ps, names[1..])
        case Err(e) =>
          assert forall k :: 1 <= k < |names| ==> names[k] == names[1..][k - 1];
          Err(e)
        case Ok(rest) =>
          assert forall k :: 1 <= k < |names| ==> names[k] == names[1..][k - 1];
          Ok([p] + rest)
  }

  /** With unique names, each property's name is counted once. */
  lemma {:induction false} DistinctCountsOnce(ps: seq<Property>, k: nat)
    requires DistinctNames(ps) && k < |ps|
    ensures CountNamed(ps, ps[k].field.name) == 1
  {
    var name := ps[k].field.name;
    if k == 0 {
      forall j | 0 <= j < |ps[1..]| ensures ps[1..][j].field.name != name {
        assert ps[1..][j] == ps[j + 1];
      }
      CountNamedZero(ps[1..], name);
    } else {
      assert ps[1..][k - 1] == ps[k];
      DistinctCountsOnce(ps[1..], k - 1);
      assert ps[0].field.name != name;
    }
  }

  /** Requesting every stored name, in storage order, loads the whole table:
      a selective load of all properties agrees with a full load. */
  lemma {:induction false} SelectAll(ps: seq<Property>)
    requires DistinctNames(ps)
    ensures Select(ps, Names(ps)) == Ok(ps)
  {
    var names := Names(ps);
    forall k | 0 <= k < |names| ensures CountNamed(ps, names[k]) == 1 {
      DistinctCountsOnce(ps, k);
    }
    assert NoRepeats(names);
    var r := Select(ps, names);
    assert r.Ok?;
    assert |r.value| == |ps|;
    forall k | 0 <= k < |ps| ensures r.value[k] == ps[k] {
      assert ps[k].field.name == names[k];
    }
    assert r.value == ps;
  }

  /** Selecting from a consistent table gives a consistent table. */
  lemma SelectPreservesConsistency(t: Table, rows: nat, names: seq<string>)
    requires Consistent(t, rows)
    requires Select(t.props, names).Ok?
    ensures Consistent(Table(t.numRows, Select(t.props, names).value), rows)
  {
    var r := Select(t.props, names).value;
    forall k | 0 <= k < |r| ensures |r[k].column| == rows {
      assert r[k] in t.props;
    }
    assert Names(r) == names;
    forall j, k | 0 <= j < k < |r| ensures r[j].field.name != r[k].field.name {
      assert Names(r)[j] == names[j] && Names(r)[k] == names[k];
    }
  }
}
