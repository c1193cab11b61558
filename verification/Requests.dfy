/** From a selection over a schema to the objects: every condition is on the schema, the arguments or the data. */
module Requests {
  import opened Truth
  import opened Names
  import opened Seqs
  import opened Filters
  import opened FilterLaws
  import opened Sql
  import opened Query
  import opened Ordering
  import opened Statement
  import opened Paging
  import opened Loader
  import opened LoaderHeap
  import opened Rebuild
  import opened SingleMode
  import opened AliasCache
  import opened SimpleParser
  import opened Labels
  import opened ColumnTree
  import opened ColumnLaws
  import opened LabelRoundTrip
  import opened Legality
  import opened Asked
  import opened AskedRoots
  import opened Schema
  import opened FilterReader
  import opened Projections
  import opened EndToEnd
  import M = Multi
  import Agreement

  // ---------------------------------------------------------------- the schema

  /** A name that is a field of the type is a scalar of it. */
  predicate ScalarIfAny(t: ObjectType, name: string) {
    Definition(t, name).Some? ==> Definition(t, name).value.kind.Scalar?
  }

  /** A column that some selection on the type projects. */
  predicate MayBeSelected(t: ObjectType, f: string) {
    f == DEFAULT_ID || Definition(t, f).Some? ||
    exists d :: d in t.fields && d.kind.Relationship? && d.kind.parentField == f
  }

  /** Joins are on columns, and the parent key of a bridge is no column of the child. */
  predicate GoodJoin(schema: map<string, ObjectType>, t: ObjectType, d: FieldDefinition)
    requires d.kind.Relationship?
  {
    ScalarIfAny(t, d.kind.parentField) &&
    (d.kind.to in schema ==>
       var to := schema[d.kind.to];
       ScalarIfAny(to, d.kind.childField) &&
       (d.kind.bridge.Some? ==>
          d.kind.bridge.value.parentKey != d.kind.childField && !MayBeSelected(to, d.kind.bridge.value.parentKey)))
  }

  /** Types are tables of their own names. */
  predicate GoodTables(schema: map<string, ObjectType>) {
    GoodSchema(schema) &&
    forall name :: name in schema ==>
      IsName(name) && schema[name].name == name && ScalarIfAny(schema[name], DEFAULT_ID) &&
      forall d :: d in schema[name].fields && d.kind.Relationship? ==> GoodJoin(schema, schema[name], d)
  }

  predicate TypeOfSchema(schema: map<string, ObjectType>, t: ObjectType) {
    t.name in schema && schema[t.name] == t
  }

  lemma TargetOfSchema(schema: map<string, ObjectType>, t: ObjectType, field: string)
    requires GoodTables(schema) && Target(schema, t, field).Some?
    ensures TypeOfSchema(schema, Target(schema, t, field).value)
  {
  }

  // ---------------------------------------------------------------- arguments

  predicate GoodArgument(argument: Option<SetInput>) {
    argument.Some? ==> GoodInput(argument.value)
  }

  /** No list of a filter argument is empty, at any depth. */
  predicate GoodArguments(ss: seq<Selection>)
    decreases ss
  {
    forall s :: s in ss ==> GoodArgument(s.filter) && GoodArguments(s.selections)
  }

  lemma ArgumentIsWellFormed(schema: map<string, ObjectType>, t: ObjectType, argument: Option<SetInput>)
    requires GoodArgument(argument) && ArgumentReads(schema, t, argument)
    ensures WellFormedSet(FilterOfArgument(schema, t, argument))
    ensures argument.Some? ==>
              ForFilters(Accepted(schema, t, argument.value).value, (f: Filter) => NamesField(schema, t, f))
  {
    if argument.Some? {
      GoodInputReads(schema, t, argument.value);
      AcceptedIsWellFormed(schema, t, argument.value);
    }
  }

  // ---------------------------------------------------------------- what the selection guarantees

  lemma ColumnMayBeSelected(t: ObjectType, ss: seq<Selection>, f: string)
    requires GoodType(t) && (forall s :: s in ss ==> Selectable(t, s)) && IsColumn(t, ss, f)
    ensures MayBeSelected(t, f)
  {
    if p :| p in ProjectionsOf(t, ss) && p.field == f {
      if p in IdProjections(t.fields) {
        var d :| d in t.fields && IsId(d) && p == Projection(d.name, None, Some("ID"));
      } else {
        var s :| s in ss && p == ProjectionOf(t, s);
        var d := Definition(t, s.name).value;
        assert d in t.fields;
      }
    }
  }

  /** Over a good schema a selection meets every condition of both query modes. */
  lemma {:induction false} SelectionIsGood(
      schema: map<string, ObjectType>, t: ObjectType, ss: seq<Selection>, n: Node)
    requires GoodTables(schema) && TypeOfSchema(schema, t) && Stands(schema, t, ss, n)
    requires SelectedOnce(schema, t, ss) && GoodArguments(ss)
    ensures WellNamed(n) && WellFormedEdges(n.edges) && M.Projected(n)
    decreases n
  {
    SelectionIsWellNamed(schema, t, ss, n);
    ProjectionHasKeys(schema, t, ss, n);
    FieldsDifferIff(schema, t, ss, n);
    forall e | e in n.edges
      ensures GoodEdge(n, e)
    {
      EdgeIsGood(schema, t, ss, n, e);
    }
  }

  predicate GoodEdge(n: Node, e: Edge) {
    e.parentColumn in n.columns && WellFormedSet(e.node.filter) && WellFormedEdges(e.node.edges) &&
    M.Projected(e.node) &&
    (e.bridge.Some? ==>
       e.bridge.value.parentKey !in e.node.columns && e.bridge.value.parentKey != e.childColumn)
  }

  lemma {:induction false} EdgeIsGood(
      schema: map<string, ObjectType>, t: ObjectType, ss: seq<Selection>, n: Node, e: Edge)
    requires GoodTables(schema) && TypeOfSchema(schema, t) && Stands(schema, t, ss, n)
    requires SelectedOnce(schema, t, ss) && GoodArguments(ss) && KeysProjected(n) && e in n.edges
    ensures GoodEdge(n, e)
    decreases e
  {
    var s := EdgeStands(schema, t, ss, n, e);
    var to := Target(schema, t, s.name).value;
    TargetOfSchema(schema, t, s.name);
    ArgumentIsWellFormed(schema, to, s.filter);
    SelectionIsGood(schema, to, s.selections, e.node);
    if e.bridge.Some? {
      BridgeIsApart(schema, t, s, e);
    }
  }

  lemma BridgeIsApart(schema: map<string, ObjectType>, t: ObjectType, s: Selection, e: Edge)
    requires GoodTables(schema) && TypeOfSchema(schema, t) && IsEdge(schema, t, s, e) && e.bridge.Some?
    ensures e.bridge.value.parentKey !in e.node.columns && e.bridge.value.parentKey != e.childColumn
  {
    var d, to, key := Definition(t, s.name).value, Target(schema, t, s.name).value, e.bridge.value.parentKey;
    assert d in t.fields && GoodJoin(schema, t, d);
    if key in e.node.columns {
      ColumnMayBeSelected(to, s.selections, key);
    }
  }

  // ---------------------------------------------------------------- the names of the root filter

  /** Dotted names of the root filter walk along selected relationships. */
  predicate RootNamesLead(q: Request) {
    q.root.filter.Some? ==> ForFilters(q.root.filter.value, (f: Filter) => LeadsFrom(q.root, f))
  }

  lemma {:induction false} LeadsIsPlanned(edges: seq<Edge>, p: Path, r: Path) returns (b: BoundJoin)
    requires PlanEdges(edges, p).Plan? && Leads(edges, r) && r != []
    ensures b in PlanEdges(edges, p).joins && b.join.path == p + r
    decreases |r|
  {
    var e :| e in edges && e.field == r[0] && Leads(e.node.edges, r[1..]);
    PlanHolds(edges, p, e);
    if r[1..] == [] {
      b := OwnJoin(e, p);
      assert r == [r[0]];
    } else {
      b := LeadsIsPlanned(e.node.edges, p + [e.field], r[1..]);
      assert p + [e.field] + r[1..] == p + r;
    }
  }

  /** A name of the root filter has an alias exactly when it walks along selected relationships. */
  lemma SeenIffLeads(q: Request, f: Filter)
    requires PlanEdges(q.root.edges, RootPath(q)).Plan? && f.path != [] && f.path[0] == q.root.table
    ensures f.path in {RootPath(q)} + Paths(PlanEdges(q.root.edges, RootPath(q)).joins) <==> LeadsFrom(q.root, f)
  {
    var p, bs := RootPath(q), PlanEdges(q.root.edges, RootPath(q)).joins;
    if |f.path| == 1 {
      assert f.path == p;
    } else {
      assert f.path == p + f.path[1..];
      if f.path in Paths(bs) {
        var b :| b in bs && b.join.path == f.path;
        PlannedLeads(q.root.edges, p, b);
      }
      if Leads(q.root.edges, f.path[1..]) {
        var b := LeadsIsPlanned(q.root.edges, p, f.path[1..]);
      }
    }
  }

  /** A request stands for a selection and a filter argument on a type of the schema. */
  ghost predicate IsRequest(
    schema: map<string, ObjectType>, t: ObjectType, ss: seq<Selection>, argument: Option<SetInput>, q: Request)
  {
    Stands(schema, t, ss, q.root) && ArgumentReads(schema, t, argument) &&
    q.root.filter == FilterOfArgument(schema, t, argument) && !q.aggregate
  }

  /** What is asked of schema and arguments: no relationship is selected twice, no list is empty. */
  predicate GoodSelection(
    schema: map<string, ObjectType>, t: ObjectType, ss: seq<Selection>, argument: Option<SetInput>)
  {
    GoodTables(schema) && TypeOfSchema(schema, t) && SelectedOnce(schema, t, ss) && GoodArguments(ss) &&
    GoodArgument(argument)
  }

  /**
   A request for a selection meets the conditions of both modes; its statement compiles, and is sound, exactly when the
   names of its root filter walk along selected relationships.
   */
  lemma RequestIsGood(
      schema: map<string, ObjectType>, t: ObjectType, ss: seq<Selection>, argument: Option<SetInput>, q: Request)
    requires GoodSelection(schema, t, ss, argument) && IsRequest(schema, t, ss, argument, q)
    ensures Proper(q) && M.Projected(q.root) && WellFormedSet(q.root.filter)
    ensures Sound(q) <==> RootNamesLead(q)
    ensures CompileRequest(q) == Rejected(UnknownPath) || CompileRequest(q).Compiled?
    ensures CompileRequest(q).Compiled? <==> RootNamesLead(q)
  {
    SelectionIsGood(schema, t, ss, q.root);
    ArgumentIsWellFormed(schema, t, argument);
    PlanEdgesShape(q.root.edges, RootPath(q), {RootPath(q)});
    if q.root.filter.Some? {
      RootCompilesIff(schema, t, q);
    }
  }

  lemma RootCompilesIff(schema: map<string, ObjectType>, t: ObjectType, q: Request)
    requires PlanEdges(q.root.edges, RootPath(q)).Plan? && q.root.filter.Some? && WellFormed(q.root.filter.value)
    requires t.name == q.root.table && ForFilters(q.root.filter.value, (f: Filter) => NamesField(schema, t, f))
    ensures RootFilter(q, Paths(PlanEdges(q.root.edges, RootPath(q)).joins)).Emit? <==> RootNamesLead(q)
    ensures RootFilter(q, Paths(PlanEdges(q.root.edges, RootPath(q)).joins)).Emit? <==> RootWellFormed(q)
    ensures var emitted := RootFilter(q, Paths(PlanEdges(q.root.edges, RootPath(q)).joins));
            emitted.Emit? || emitted == Fails(UnknownPath)
  {
    var s, known := q.root.filter.value, {RootPath(q)} + Paths(PlanEdges(q.root.edges, RootPath(q)).joins);
    var named := (f: Filter) => NamesField(schema, t, f);
    var leads := (f: Filter) => LeadsFrom(q.root, f);
    EmitsIff(s, RootPath(q), known);
    forall f: Filter | named(f)
      ensures SeenIn(known)(f) <==> leads(f)
      ensures SeenIn(known)(f) <==> PlacedIn(RootPath(q), Some(known))(f)
    {
      SeenIffLeads(q, f);
      assert |f.path| > 1 ==> RootPath(q) + f.path[1..] == f.path;
      assert |f.path| == 1 ==> f.path == RootPath(q);
    }
    ForFiltersSameUnder(s, named, SeenIn(known), leads);
    ForFiltersSameUnder(s, named, SeenIn(known), PlacedIn(RootPath(q), Some(known)));
  }

  /** What a type asks for is what its argument says, as it is written. */
  lemma AsksAsWritten(
      db: Database, schema: map<string, ObjectType>, t: ObjectType, argument: Option<SetInput>, n: Node, x: Row)
    requires GoodArgument(argument) && ArgumentReads(schema, t, argument)
    requires n.filter == FilterOfArgument(schema, t, argument)
    ensures Asks(db, n, x) <==>
              (argument.Some? ==>
                 exists r: Related :: r.row == x && Relates(db, n.edges, r) &&
                                      InputAsks(argument.value, [], db.collation, WorldOf(r)) == Yes)
  {
    if argument.Some? {
      forall r: Related
        ensures Meaning(n.filter.value, [], db.collation, WorldOf(r)) ==
                InputAsks(argument.value, [], db.collation, WorldOf(r))
      {
        AcceptedMeansInput(schema, t, argument.value, [], db.collation, WorldOf(r));
      }
    }
  }

  // ---------------------------------------------------------------- a database with the columns of the schema

  /** A join starts from, or ends in, a column of the table that is no field of its type. */
  predicate JoinsUse(schema: map<string, ObjectType>, name: string, f: string)
    requires name in schema
  {
    (exists d :: d in schema[name].fields && d.kind.Relationship? && d.kind.parentField == f) ||
    exists other, d :: other in schema && d in schema[other].fields && d.kind.Relationship? && d.kind.to == name &&
                       d.kind.childField == f
  }

  /** The columns of a type's table: its scalars, and what joins and default keys use beside them. */
  predicate IsTableColumn(schema: map<string, ObjectType>, name: string, f: string)
    requires name in schema
  {
    match Definition(schema[name], f)
    case Some(d) => d.kind.Scalar?
    case None => f == DEFAULT_ID || JoinsUse(schema, name, f)
  }

  /** The database has exactly these columns, and those of the bridges. */
  ghost predicate HasTables(db: Database, schema: map<string, ObjectType>) {
    (forall name, f :: name in schema ==> (HasColumn(db, name, f) <==> IsTableColumn(schema, name, f))) &&
    forall name, d :: name in schema && d in schema[name].fields && d.kind.Relationship? && d.kind.bridge.Some? ==>
      HasColumn(db, d.kind.bridge.value.table, d.kind.bridge.value.parentKey) &&
      HasColumn(db, d.kind.bridge.value.table, d.kind.bridge.value.childKey)
  }

  lemma ProjectedExists(
      db: Database, schema: map<string, ObjectType>, t: ObjectType, ss: seq<Selection>, f: string)
    requires GoodTables(schema) && HasTables(db, schema) && TypeOfSchema(schema, t)
    requires (forall s :: s in ss ==> Selectable(t, s)) && IsColumn(t, ss, f)
    ensures HasColumn(db, t.name, f)
  {
    if p :| p in ProjectionsOf(t, ss) && p.field == f {
      if p in IdProjections(t.fields) {
        var d :| d in t.fields && IsId(d) && p == Projection(d.name, None, Some("ID"));
        assert Definition(t, d.name) == Some(d);
      } else {
        var s :| s in ss && p == ProjectionOf(t, s);
        SelectedExists(db, schema, t, s);
      }
    }
  }

  lemma SelectedExists(db: Database, schema: map<string, ObjectType>, t: ObjectType, s: Selection)
    requires GoodTables(schema) && HasTables(db, schema) && TypeOfSchema(schema, t) && Selectable(t, s)
    ensures HasColumn(db, t.name, ProjectionOf(t, s).field)
  {
    var d := Definition(t, s.name).value;
    assert d in schema[t.name].fields;
    if d.kind.Relationship? {
      assert GoodJoin(schema, t, d) && JoinsUse(schema, t.name, d.kind.parentField);
    }
  }

  lemma JoinExists(db: Database, schema: map<string, ObjectType>, t: ObjectType, s: Selection, e: Edge)
    requires GoodTables(schema) && HasTables(db, schema) && TypeOfSchema(schema, t) && IsEdge(schema, t, s, e)
    ensures EdgeKnown(db, t.name, e) <==> FilterKnown(db, e.node)
  {
    var d, to := Definition(t, s.name).value, Target(schema, t, s.name).value;
    TargetOfSchema(schema, t, s.name);
    assert d in schema[t.name].fields && GoodJoin(schema, t, d);
    assert JoinsUse(schema, t.name, d.kind.parentField) && JoinsUse(schema, to.name, d.kind.childField);
    assert e.node.table == to.name;
  }

  /** Columns and joins of a selection exist; only the names of its filters are in question. */
  lemma {:induction false} SelectionExists(
      db: Database, schema: map<string, ObjectType>, t: ObjectType, ss: seq<Selection>, n: Node)
    requires GoodTables(schema) && HasTables(db, schema) && TypeOfSchema(schema, t) && Stands(schema, t, ss, n)
    ensures ColumnsKnown(db, n)
    ensures EdgesKnown(db, n.table, n.edges) <==> FiltersKnown(db, n.edges)
    decreases n
  {
    forall f | f in n.columns
      ensures HasColumn(db, n.table, f)
    {
      ProjectedExists(db, schema, t, ss, f);
    }
    forall e | e in n.edges
      ensures ColumnsKnown(db, e.node) && (EdgeKnown(db, n.table, e) <==> FilterKnown(db, e.node))
      ensures EdgesKnown(db, e.node.table, e.node.edges) <==> FiltersKnown(db, e.node.edges)
    {
      var s := EdgeStands(schema, t, ss, n, e);
      JoinExists(db, schema, t, s, e);
      TargetOfSchema(schema, t, s.name);
      SelectionExists(db, schema, Target(schema, t, s.name).value, s.selections, e.node);
    }
  }

  // ---------------------------------------------------------------- the types names lead to

  lemma {:induction false} FollowAlong(schema: map<string, ObjectType>, t: ObjectType, a: string, r: seq<string>)
    ensures Follow(schema, t, [a] + r) ==
              if Target(schema, t, a).None? then None else Follow(schema, Target(schema, t, a).value, r)
    decreases |r|
  {
    if r == [] {
      assert [a] + r == [a] && [a][..0] == [];
      assert Follow(schema, t, [a][..0]) == Some(t);
    } else {
      assert ([a] + r)[..|[a] + r| - 1] == [a] + r[..|r| - 1];
      FollowAlong(schema, t, a, r[..|r| - 1]);
    }
  }

  /** One step along a selected relationship. */
  lemma StepToType(schema: map<string, ObjectType>, t: ObjectType, ss: seq<Selection>, n: Node, r: Path)
    returns (e: Edge, below: seq<Selection>, to: ObjectType)
    requires GoodTables(schema) && Stands(schema, t, ss, n) && r != [] && Leads(n.edges, r)
    ensures e in n.edges && e.field == r[0] && Leads(e.node.edges, r[1..])
    ensures TypeOfSchema(schema, to) && Stands(schema, to, below, e.node)
    ensures Follow(schema, t, r) == Follow(schema, to, r[1..])
  {
    e :| e in n.edges && e.field == r[0] && Leads(e.node.edges, r[1..]);
    var s := EdgeStands(schema, t, ss, n, e);
    below, to := s.selections, Target(schema, t, s.name).value;
    TargetOfSchema(schema, t, s.name);
    assert r == [r[0]] + r[1..];
    FollowAlong(schema, t, r[0], r[1..]);
  }

  lemma OccursUnder(n: Node, p: Path, e: Edge, m: Node, r: Path)
    requires e in n.edges && r != [] && r[0] == e.field && Occurs(e.node, p + [e.field], m, p + [e.field] + r[1..])
    ensures Occurs(n, p, m, p + r)
  {
    assert p + [e.field] + r[1..] == p + r;
  }

  /** Along selected relationships the schema leads to the type that occurs there. */
  lemma {:induction false} LeadsToType(
      schema: map<string, ObjectType>, t: ObjectType, ss: seq<Selection>, n: Node, p: Path, r: Path)
    returns (m: Node)
    requires GoodTables(schema) && TypeOfSchema(schema, t) && Stands(schema, t, ss, n) && Leads(n.edges, r)
    ensures Occurs(n, p, m, p + r)
    ensures Follow(schema, t, r).Some? && TypeOfSchema(schema, Follow(schema, t, r).value)
    ensures m.table == Follow(schema, t, r).value.name
    decreases |r|
  {
    if r == [] {
      m := n;
      assert p + r == p;
    } else {
      var e, below, to := StepToType(schema, t, ss, n, r);
      m := LeadsToType(schema, to, below, e.node, p + [e.field], r[1..]);
      OccursUnder(n, p, e, m, r);
    }
  }

  /** A name of the root filter is a column in sight exactly when it is a scalar of the type it leads to. */
  lemma RootNameExists(
      db: Database, schema: map<string, ObjectType>, t: ObjectType, ss: seq<Selection>, q: Request, f: Filter)
    requires GoodTables(schema) && HasTables(db, schema) && TypeOfSchema(schema, t) && Stands(schema, t, ss, q.root)
    requires Proper(q) && NamesField(schema, t, f) && LeadsFrom(q.root, f)
    ensures RootColumnKnown(db, q, f) <==> NamesColumn(schema, t, f)
  {
    var at := TableOf(f, RootPath(q), Some({}));
    assert f.path == RootPath(q) + f.path[1..];
    assert |f.path| == 1 ==> f.path[1..] == [];
    var m := LeadsToType(schema, t, ss, q.root, RootPath(q), f.path[1..]);
    assert Type(q, m, at);
    forall m' | Type(q, m', at)
      ensures m' == m
    {
      OneTypePerPath(q.root, RootPath(q), m, m', at);
    }
    assert HasColumn(db, m.table, f.fieldName) <==> IsTableColumn(schema, m.table, f.fieldName);
  }

  /**
   When a database with the columns of the schema takes the statement of a selection: a sort field is selected, the last
   name of every root filter is a scalar of the type it leads to, and every nested filter, dotted or not, ends in the
   name of a column of its own table.
   */
  lemma SelectionIsTakenIff(
      db: Database, schema: map<string, ObjectType>, t: ObjectType, ss: seq<Selection>, argument: Option<SetInput>,
      q: Request)
    requires GoodSelection(schema, t, ss, argument) && IsRequest(schema, t, ss, argument, q)
    requires HasTables(db, schema) && RootNamesLead(q)
    ensures var scalars := argument.Some? ==> ForInputs(argument.value, EndsInScalarOver(schema, t));
            Takes(db, q) <==> SortSelected(q) && FiltersKnown(db, q.root.edges) && scalars
  {
    RequestIsGood(schema, t, ss, argument, q);
    SelectionExists(db, schema, t, ss, q.root);
    if argument.Some? {
      var tree := q.root.filter.value;
      ArgumentIsWellFormed(schema, t, argument);
      AcceptedNamesColumnsIff(schema, t, argument.value);
      var named := (f: Filter) => NamesField(schema, t, f);
      var leads := (f: Filter) => LeadsFrom(q.root, f);
      var both := (f: Filter) => named(f) && leads(f);
      ForFiltersBoth(tree, named, leads);
      var known := (f: Filter) => RootColumnKnown(db, q, f);
      forall f: Filter | both(f)
        ensures known(f) <==> NamesColumnOver(schema, t)(f)
      {
        RootNameExists(db, schema, t, ss, q, f);
      }
      ForFiltersSameUnder(tree, both, known, NamesColumnOver(schema, t));
    }
  }

  // ---------------------------------------------------------------- the data

  /** A column that some selection on the type takes for its key. */
  predicate MayBeKey(t: ObjectType, k: string) {
    (exists d :: d in t.fields && IsId(d) && d.name == k) ||
    ((forall d :: d in t.fields ==> !IsId(d)) && k == DEFAULT_ID)
  }

  predicate UniqueOn(db: Database, table: string, k: string) {
    (forall x :: x in RowsOf(db, table) ==> Col(x, k).Val?) &&
    forall x, y | x in RowsOf(db, table) && y in RowsOf(db, table) && Col(x, k) == Col(y, k) :: x == y
  }

  /** The keys of the tables are not NULL and unique. */
  ghost predicate KeyedTables(db: Database, schema: map<string, ObjectType>) {
    forall name, k :: name in schema && MayBeKey(schema[name], k) ==> UniqueOn(db, name, k)
  }

  lemma {:induction false} NoIdDefined(fields: seq<FieldDefinition>)
    requires DefinedId(fields).None?
    ensures forall d :: d in fields ==> !IsId(d)
    decreases fields
  {
    if fields != [] {
      NoIdDefined(fields[..|fields| - 1]);
      assert forall d :: d in fields ==> d in fields[..|fields| - 1] || d == fields[|fields| - 1];
    }
  }

  lemma {:induction false} SelectedIdIsId(t: ObjectType, ss: seq<Selection>)
    requires SelectedId(t, ss).Some?
    ensures exists d :: d in t.fields && IsId(d) && d.name == SelectedId(t, ss).value
    decreases ss
  {
    var last := ss[|ss| - 1];
    var d := Definition(t, last.name);
    if !(d.Some? && IsId(d.value)) {
      SelectedIdIsId(t, ss[..|ss| - 1]);
    }
  }

  lemma KeyMayBe(t: ObjectType, ss: seq<Selection>)
    ensures MayBeKey(t, KeyName(t, ss))
  {
    if SelectedId(t, ss).Some? {
      SelectedIdIsId(t, ss);
    } else if DefinedId(t.fields).Some? {
      DefinedIdIsProjected(t.fields);
    } else {
      NoIdDefined(t.fields);
    }
  }

  lemma {:induction false} SelectionIsKeyed(
      db: Database, schema: map<string, ObjectType>, t: ObjectType, ss: seq<Selection>, n: Node)
    requires GoodTables(schema) && KeyedTables(db, schema) && TypeOfSchema(schema, t) && Stands(schema, t, ss, n)
    ensures Keyed(db, n)
    decreases n
  {
    KeyMayBe(t, ss);
    assert UniqueOn(db, t.name, n.key);
    forall e | e in n.edges
      ensures Keyed(db, e.node)
    {
      var s := EdgeStands(schema, t, ss, n, e);
      TargetOfSchema(schema, t, s.name);
      SelectionIsKeyed(db, schema, Target(schema, t, s.name).value, s.selections, e.node);
    }
  }

  // ---------------------------------------------------------------- what is delivered for a selection

  /**
   An object shows what is selected of a row: every selected scalar has the row's value, and every object below it,
   under the field of a selected relationship, shows what is selected there of some row of the type it leads to.
   */
  ghost predicate ShowsSelected(
    db: Database, schema: map<string, ObjectType>, t: ObjectType, ss: seq<Selection>, x: Row, o: Tree)
    decreases ss, 1
  {
    (forall s :: s in ss && IsScalar(t, s.name) ==> s.name in o.scalars && o.scalars[s.name] == Col(x, s.name)) &&
    forall kid :: kid in o.kids ==> KidShowsSelected(db, schema, t, ss, kid)
  }

  ghost predicate KidShowsSelected(
    db: Database, schema: map<string, ObjectType>, t: ObjectType, ss: seq<Selection>, kid: (string, Tree))
    decreases ss, 0
  {
    exists s, y :: s in ss && ShowsSelectedBelow(db, schema, t, s, y, kid)
  }

  ghost predicate ShowsSelectedBelow(
    db: Database, schema: map<string, ObjectType>, t: ObjectType, s: Selection, y: Row, kid: (string, Tree))
    decreases s
  {
    kid.0 == s.name && Target(schema, t, s.name).Some? &&
    var to := Target(schema, t, s.name).value;
    y in RowsOf(db, to.name) && ShowsSelected(db, schema, to, s.selections, y, kid.1)
  }

  lemma ScalarsSelected(schema: map<string, ObjectType>, t: ObjectType, ss: seq<Selection>, n: Node, x: Row)
    requires Stands(schema, t, ss, n)
    ensures forall s :: s in ss && IsScalar(t, s.name) ==>
              s.name in ScalarsOf(n, x) && ScalarsOf(n, x)[s.name] == Col(x, s.name)
  {
    StandsReflects(schema, t, ss, n);
    forall s | s in ss && IsScalar(t, s.name)
      ensures s.name in n.columns
    {
      assert SelectsScalar(t, ss, s.name);
    }
  }

  lemma IsCached(a: Answer, r: RowObject, n: Node, p: Path, x: Row, j0: JoinedRow)
    requires Answered(a) && At(a, r, n, p) && IsKept(a, j0) && p in j0 && j0[p] == Some(x)
    ensures NodeKey(n, p, x) in Cache(a)
  {
    CachedHere(a, r, n, p, x, j0);
  }

  /** What the loader has cached for a shown row, read with everything it refers to, shows what is selected. */
  lemma {:induction false} CachedShowsSelected(
      a: Answer, r: RowObject, n: Node, p: Path, x: Row, j0: JoinedRow, schema: map<string, ObjectType>, t: ObjectType,
      ss: seq<Selection>)
    requires Answered(a) && At(a, r, n, p) && IsKept(a, j0) && p in j0 && j0[p] == Some(x)
    requires Stands(schema, t, ss, n)
    ensures ShowsSelected(a.db, schema, t, ss, x, Reify(Cache(a), r, NodeKey(n, p, x)))
    decreases r, 2
  {
    ScalarsHere(a, r, n, p, x, j0);
    ScalarsSelected(schema, t, ss, n, x);
    CachedKidsShowSelected(a, r, n, p, x, j0, schema, t, ss);
  }

  lemma {:induction false} CachedKidsShowSelected(
      a: Answer, r: RowObject, n: Node, p: Path, x: Row, j0: JoinedRow, schema: map<string, ObjectType>, t: ObjectType,
      ss: seq<Selection>)
    requires Answered(a) && At(a, r, n, p) && IsKept(a, j0) && p in j0 && j0[p] == Some(x)
    requires Stands(schema, t, ss, n)
    ensures forall kid :: kid in Reify(Cache(a), r, NodeKey(n, p, x)).kids ==>
              KidShowsSelected(a.db, schema, t, ss, kid)
    decreases r, 1
  {
    IsCached(a, r, n, p, x, j0);
    forall kid | kid in Reify(Cache(a), r, NodeKey(n, p, x)).kids
      ensures KidShowsSelected(a.db, schema, t, ss, kid)
    {
      var s, y := CachedKidShowsSelected(a, r, n, p, x, j0, schema, t, ss, kid);
    }
  }

  lemma {:induction false} CachedKidShowsSelected(
      a: Answer, r: RowObject, n: Node, p: Path, x: Row, j0: JoinedRow, schema: map<string, ObjectType>, t: ObjectType,
      ss: seq<Selection>, kid: (string, Tree)) returns (s: Selection, y: Row)
    requires Answered(a) && At(a, r, n, p) && IsKept(a, j0) && p in j0 && j0[p] == Some(x)
    requires Stands(schema, t, ss, n) && NodeKey(n, p, x) in Cache(a)
    requires kid in Reify(Cache(a), r, NodeKey(n, p, x)).kids
    ensures s in ss && ShowsSelectedBelow(a.db, schema, t, s, y, kid)
    decreases r, 0
  {
    var c, m := KidIsLink(Cache(a), r, NodeKey(n, p, x), kid);
    var e;
    e, y := KidIsShown(a, r, n, p, x, j0, c, m);
    var q := p + [e.field];
    Descends(a, r, n, p, c, e);
    s := EdgeStands(schema, t, ss, n, e);
    var j: JoinedRow :| IsKept(a, j) && p in j && j[p] == Some(x) && q in j && j[q] == Some(y);
    CachedShowsSelected(a, c, e.node, q, y, j, schema, Target(schema, t, s.name).value, s.selections);
  }

  /** So do the objects of nested loops, which the multi-query mode returns. */
  lemma {:induction false} BuiltShowsSelected(
      db: Database, schema: map<string, ObjectType>, t: ObjectType, ss: seq<Selection>, n: Node, x: Row)
    requires Stands(schema, t, ss, n)
    ensures ShowsSelected(db, schema, t, ss, x, Build(db, n, x))
    decreases n
  {
    ScalarsSelected(schema, t, ss, n, x);
    forall kid | kid in Build(db, n, x).kids
      ensures KidShowsSelected(db, schema, t, ss, kid)
    {
      var e, y :| e in n.edges && y in RowsOf(db, e.node.table) && JoinsTo(db, e, x, y) &&
                  kid == (e.field, Build(db, e.node, y));
      var s := EdgeStands(schema, t, ss, n, e);
      BuiltShowsSelected(db, schema, Target(schema, t, s.name).value, s.selections, e.node, y);
      assert ShowsSelectedBelow(db, schema, t, s, y, kid);
    }
  }

  /** Every loaded object, at every depth, shows what is selected of its row, whether or not its children collide. */
  lemma LoadedShowSelected(
      db: Database, q: Request, xs: seq<Row>, js: seq<JoinedRow>, root: RowObject, schema: map<string, ObjectType>,
      t: ObjectType, ss: seq<Selection>)
    requires Proper(q) && Sound(q) && Keyed(db, q.root) && LoaderReady(q, LabelsOf(q), root, ManyOf(q))
    requires SingleMode.Answers(db, q, xs, LabelsOf(q), js) && Stands(schema, t, ss, q.root)
    ensures var trees := LoadedTrees(AnswerOf(db, q, PageOf(q, xs), LabelsOf(q), js, root, ManyOf(q)));
            |trees| == |FirstRoots(q, js)| &&
            forall i :: 0 <= i < |trees| ==> ShowsSelected(db, schema, t, ss, FirstRoots(q, js)[i], trees[i])
  {
    var labels, many := LabelsOf(q), ManyOf(q);
    var a, roots := AnswerOf(db, q, PageOf(q, xs), labels, js, root, many), FirstRoots(q, js);
    IsAnswered(db, q, xs, labels, js, root, many);
    IsAtRoot(db, q, xs, labels, js, root, many);
    RootKeyShown(q, labels, root, many);
    Pagination(db, q, BoundRequest(q), xs, labels, js);
    ListIsRoots(db, q, xs, labels, js, root, many);
    forall i | 0 <= i < |roots|
      ensures ShowsSelected(db, schema, t, ss, roots[i], LoadedTrees(a)[i])
    {
      assert roots[i] in roots;
      var j := PageIsKept(db, q, BoundRequest(q), xs, roots[i]);
      KeptIsKept(db, q, PageOf(q, xs), labels, js, root, many, j);
      CachedShowsSelected(a, root, q.root, RootPath(q), roots[i], j, schema, t, ss);
    }
  }

  // ---------------------------------------------------------------- from the selection to the objects

  /** The objects of the loader, followed through the heap, show what is selected of the roots, one for one. */
  ghost predicate DeliversSelected(
    db: Database, schema: map<string, ObjectType>, t: ObjectType, ss: seq<Selection>, q: Request, r: Loaded,
    roots: seq<Row>)
    requires r.loader.Shows(ParseRows(r.root, r.rows, ManyOf(q)))
    reads r.loader, r.loader.objects
  {
    |r.loader.resultTreeList| == |roots| &&
    forall i :: 0 <= i < |roots| ==>
      ShowsSelected(db, schema, t, ss, roots[i], Followed(r.loader.objects, r.root, r.loader.resultTreeList[i]))
  }

  lemma DeliveredShowsSelected(
      db: Database, schema: map<string, ObjectType>, t: ObjectType, ss: seq<Selection>, q: Request, r: Loaded,
      xs: seq<Row>, js: seq<JoinedRow>)
    requires r.loader.Shows(ParseRows(r.root, r.rows, ManyOf(q))) && Delivers(db, q, r, xs, js)
    requires Proper(q) && Sound(q) && Keyed(db, q.root) && Stands(schema, t, ss, q.root)
    ensures DeliversSelected(db, schema, t, ss, q, r, FirstRoots(q, js))
  {
    LoadedShowSelected(db, q, xs, js, r.root, schema, t, ss);
  }

  /**
   The single-query mode from the selection on. Whether there is a request, whether its statement compiles and whether
   the database takes it is decided by schema, arguments and columns; otherwise the objects are delivered.
   */
  method AnswerSelection(
      ghost db: Database, engine: SingleEngine, schema: map<string, ObjectType>, t: ObjectType, ss: seq<Selection>,
      argument: Option<SetInput>, sort: Sort, skip: Option<nat>, limit: Option<nat>)
    returns (r: Option<Outcome>, ghost q: Request, ghost xs: seq<Row>, ghost js: seq<JoinedRow>)
    requires FaithfulSingle(db, engine) && GoodSelection(schema, t, ss, argument) && KeyedTables(db, schema)
    ensures r.Some? <==> SelectionReads(schema, t, ss) && ArgumentReads(schema, t, argument)
    ensures r.Some? ==>
              IsRequest(schema, t, ss, argument, q) && q.sort == sort && q.skip == skip && q.limit == limit &&
              (r.value.NotCompiled? <==> !RootNamesLead(q)) &&
              (r.value.Refused? <==> RootNamesLead(q) && !Takes(db, q))
    ensures r.Some? && r.value.Delivered? ==>
              var loaded := r.value.loaded;
              loaded.loader.Shows(ParseRows(loaded.root, loaded.rows, ManyOf(q))) && Delivers(db, q, loaded, xs, js) &&
              DeliversSelected(db, schema, t, ss, q, loaded, FirstRoots(q, js))
  {
    var n := BuildNode(schema, t, ss, argument);
    q := Request(Node("", "", [], None, []), skip, limit, sort, false);
    xs, js := [], [];
    if n.None? {
      return None, q, xs, js;
    }
    q := Request(n.value, skip, limit, sort, false);
    RequestIsGood(schema, t, ss, argument, q);
    SelectionIsKeyed(db, schema, t, ss, n.value);
    var outcome;
    outcome, xs, js := TraverseSingle(db, engine, Request(n.value, skip, limit, sort, false));
    if outcome.Delivered? {
      DeliveredShowsSelected(db, schema, t, ss, q, outcome.loaded, xs, js);
    }
    r := Some(outcome);
  }

  /**
   Both modes from the selection on: over a good schema and keyed tables they return the same objects exactly when no
   two children of one has-many field have keys of one hash code.
   */
  lemma SelectionModesAgree(
      db: Database, schema: map<string, ObjectType>, t: ObjectType, ss: seq<Selection>, argument: Option<SetInput>,
      q: Request, xs: seq<Row>, labels: seq<string>, paths: seq<string>, js: seq<JoinedRow>, rows: seq<Row>,
      objects: seq<M.ResultObject>)
    requires GoodSelection(schema, t, ss, argument) && IsRequest(schema, t, ss, argument, q)
    requires WellFormedSet(q.root.filter)
    requires KeyedTables(db, schema) && TotalOrder(db.collation) && Agreement.SortedByKey(q) && RootUndotted(q)
    requires Printed(q, labels) && Readable(Reversed(OrderOf(q)), labels) && Lists(q, labels, paths)
    requires SingleMode.Answers(db, q, xs, LabelsOf(q), js) && Agreement.MultiRun(db, q, rows, objects)
    ensures AllKeyed(TypesRead(q, labels), paths) && q.root.table in paths
    ensures var root := RootRead(q, labels, paths);
            var trees := LoadedTrees(AnswerOf(db, q, PageOf(q, xs), LabelsOf(q), js, root, ManyOf(q)));
            trees == Map(objects, (o: M.ResultObject) => M.TreeOf(q.root, o)) <==>
              forall x :: x in PageOf(q, xs) ==> SiblingsApart(db, q.root, RootPath(q), x)
  {
    RequestIsGood(schema, t, ss, argument, q);
    SelectionIsKeyed(db, schema, t, ss, q.root);
    CompiledModesAgree(db, q, xs, labels, paths, js, rows, objects);
  }
}
