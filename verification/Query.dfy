/**
 A nested selection: the tree of types it visits, what every type contributes, and the joins the single-query
 compiler plans for it.
 */
module Query {
  import opened Truth
  import opened Filters
  import opened FilterLaws
  import opened Sql

  /** The key column of a type, and the sort column of a query, when none is given. */
  const DEFAULT_ID := "id"

  /** One selected type: its table, primary key, projected columns (key and join columns included), filter. */
  datatype Node = Node(table: string, key: string, columns: seq<string>, filter: Option<FilterSet>, edges: seq<Edge>)

  /** A selected relationship field. */
  datatype Edge = Edge(
    field: string, parentColumn: string, childColumn: string, hasMany: bool, bridge: Option<Bridge>, node: Node)

  // ---------------------------------------------------------------- a selection as it is compiled

  /** A filter compiled without aliases reads one row: whatever table a name leads to, its column is looked up here. */
  function RowEnv(row: Row): Env {
    (c: Column) => Col(row, c.field)
  }

  /** The row meets the filter as compiled: negations without an operator are dropped. */
  predicate Selected(co: Collation, filter: Option<FilterSet>, row: Row) {
    filter.Some? ==> Meaning(DropLone(filter.value), [], co, RowEnv(row)) == Yes
  }

  predicate JoinsTo(db: Database, e: Edge, parent: Row, child: Row) {
    child in RowsOf(db, e.node.table) &&
    KeysMeet(db, e.bridge, e.childColumn, Col(parent, e.parentColumn), child) &&
    Selected(db.collation, e.node.filter, child)
  }

  /** A result object up to the order of children and up to absent, null and empty fields. */
  datatype Tree = Tree(scalars: map<string, Value>, kids: set<(string, Tree)>)

  function ScalarsOf(n: Node, row: Row): map<string, Value> {
    map f | f in n.columns :: Col(row, f)
  }

  /** Nested loops: a row, its scalars, and under every selected field the objects of the rows it joins to. */
  function Build(db: Database, n: Node, row: Row): Tree
    decreases n
  {
    Tree(ScalarsOf(n, row),
         set e, y | e in n.edges && y in RowsOf(db, e.node.table) && JoinsTo(db, e, row, y) ::
           (e.field, Build(db, e.node, y)))
  }

  // ---------------------------------------------------------------- well-formed selections

  predicate WellFormedSet(filter: Option<FilterSet>) {
    filter.Some? ==> WellFormed(filter.value)
  }

  predicate DistinctFields(edges: seq<Edge>) {
    forall i, j :: 0 <= i < j < |edges| ==> edges[i].field != edges[j].field
  }

  lemma SameEdgeField(edges: seq<Edge>, e: Edge, d: Edge)
    requires DistinctFields(edges) && e in edges && d in edges && e.field == d.field
    ensures e == d
  {
    var i, k :| 0 <= i < |edges| && 0 <= k < |edges| && edges[i] == e && edges[k] == d;
    assert i == k;
  }

  /** Sibling fields differ; the filters of nested types are well formed. */
  predicate WellFormedEdges(edges: seq<Edge>) {
    DistinctFields(edges) &&
    forall e :: e in edges ==> WellFormedSet(e.node.filter) && WellFormedEdges(e.node.edges)
  }

  // ---------------------------------------------------------------- the columns a selection reads

  function OnTable(db: Database, table: string): Filter -> bool {
    (f: Filter) => HasColumn(db, table, f.fieldName)
  }

  /** Compiled without aliases, the filter of a type reads that type's own columns. */
  predicate FilterKnown(db: Database, n: Node) {
    n.filter.Some? ==> ForFilters(n.filter.value, OnTable(db, n.table))
  }

  /** The selected columns exist, at every type. */
  predicate ColumnsKnown(db: Database, n: Node) {
    (forall f :: f in n.columns ==> HasColumn(db, n.table, f)) && forall e :: e in n.edges ==> ColumnsKnown(db, e.node)
  }

  predicate EdgeKnown(db: Database, table: string, e: Edge) {
    HasColumn(db, table, e.parentColumn) && HasColumn(db, e.node.table, e.childColumn) &&
    (e.bridge.Some? ==>
       HasColumn(db, e.bridge.value.table, e.bridge.value.parentKey) &&
       HasColumn(db, e.bridge.value.table, e.bridge.value.childKey)) &&
    FilterKnown(db, e.node)
  }

  /** The columns that joins and the filters on them read exist, at every relationship. */
  predicate EdgesKnown(db: Database, table: string, edges: seq<Edge>)
    decreases edges
  {
    forall e :: e in edges ==> EdgeKnown(db, table, e) && EdgesKnown(db, e.node.table, e.node.edges)
  }

  /** The columns that nested filters read exist. */
  predicate FiltersKnown(db: Database, edges: seq<Edge>)
    decreases edges
  {
    forall e :: e in edges ==> FilterKnown(db, e.node) && FiltersKnown(db, e.node.edges)
  }

  /** The columns a selection reads exist. */
  predicate NamesKnown(db: Database, n: Node) {
    ColumnsKnown(db, n) && EdgesKnown(db, n.table, n.edges)
  }

  // ---------------------------------------------------------------- the planned joins

  datatype Planned = Plan(joins: seq<BoundJoin>) | NoPlan(error: Error)

  function JoinOf(e: Edge, path: Path, condition: Option<Condition>): Join {
    Join(path + [e.field], path, e.node.table, e.parentColumn, e.childColumn, e.bridge, condition)
  }

  /** The ON filter of a join is compiled without aliases, on the joined table. */
  function OnFilter(e: Edge, path: Path): Emitted {
    if e.node.filter.None? then NoCondition
    else
      var emitted := Compile(e.node.filter.value, path + [e.field], None);
      if emitted.NoCondition? then Fails(NullCondition) else emitted
  }

  function OwnJoin(e: Edge, path: Path): BoundJoin
    requires !OnFilter(e, path).Fails?
  {
    match OnFilter(e, path)
    case NoCondition => BoundJoin(JoinOf(e, path, None), [])
    case Emit(c, ps) => BoundJoin(JoinOf(e, path, Some(c)), ps)
  }

  /** A join is planned only with its filter: one that prints no condition makes the compiler fail. */
  lemma NoFilterIsLost(e: Edge, path: Path)
    ensures !OnFilter(e, path).Fails? ==> (OwnJoin(e, path).join.filter.Some? <==> e.node.filter.Some?)
    ensures OnFilter(e, path).Fails? ==>
              e.node.filter.Some? && !Compile(e.node.filter.value, path + [e.field], None).Emit?
  {
  }

  function PlanEdge(e: Edge, path: Path): Planned
    decreases e
  {
    if OnFilter(e, path).Fails? then NoPlan(OnFilter(e, path).error)
    else
      var below := PlanEdges(e.node.edges, path + [e.field]);
      if below.NoPlan? then below else Plan([OwnJoin(e, path)] + below.joins)
  }

  /** Preorder: a join, the joins below it, its later siblings. */
  function PlanEdges(edges: seq<Edge>, path: Path): Planned
    decreases edges
  {
    if edges == [] then Plan([])
    else
      var first := PlanEdge(edges[0], path);
      if first.NoPlan? then first
      else
        var rest := PlanEdges(edges[1..], path);
        if rest.NoPlan? then rest else Plan(first.joins + rest.joins)
  }

  // ---------------------------------------------------------------- filters of one row

  /** Compiled without aliases, a filter names columns of its own table only: they exist when those of the tree do. */
  lemma NamesOwnColumns(db: Database, s: FilterSet, at: Path, table: string)
    requires WellFormed(s)
    ensures Compile(s, at, None).Emit?
    ensures var named := NamedIn(Compile(s, at, None).condition);
            (forall c :: c in named ==> c.table == at) &&
            ((forall c :: c in named ==> HasColumn(db, table, c.field)) <==> ForFilters(s, OnTable(db, table)))
  {
    WithoutAliases(s, at, Collation((a, b) => false, (a, b) => false), (c: Column) => Null, map[]);
    var own, known := (c: Column) => c.table == at, (c: Column) => HasColumn(db, table, c.field);
    forall f: Filter
      ensures PutWhere(at, None, own)(f) && (PutWhere(at, None, known)(f) <==> OnTable(db, table)(f))
    {
      assert TableOf(f, at, None) == at;
    }
    NamesEveryFilter(s, at, None, own);
    ForFiltersAlways(s, PutWhere(at, None, own));
    NamesEveryFilter(s, at, None, known);
    ForFiltersSame(s, PutWhere(at, None, known), OnTable(db, table));
    assert forall c :: own(c) <==> c.table == at;
    assert forall c :: known(c) <==> HasColumn(db, table, c.field);
  }

  /** Compiled without aliases, a filter asks of a row what `Selected` says. */
  lemma WithoutAliases(s: FilterSet, table: Path, co: Collation, env: Env, row: Row)
    requires WellFormed(s) && forall f: string :: env(Column(table, f)) == Col(row, f)
    ensures var e := Compile(s, table, None);
            e.Emit? && |e.parameters| == Holes(e.condition) &&
            Eval(e.condition, co, env, e.parameters) == Meaning(DropLone(s), [], co, RowEnv(row))
  {
    var r := Reading(table, None, env, [], RowEnv(row));
    ForFiltersAlways(s, AlikeIn(r));
    EmittedReads(s, r, co);
  }

  /** The bound ON filter of a planned join selects exactly the rows the selection's own filter selects. */
  lemma OwnJoinShows(db: Database, e: Edge, path: Path, j: JoinedRow, child: Row)
    requires WellFormedSet(e.node.filter)
    ensures !OnFilter(e, path).Fails? && Fits(OwnJoin(e, path))
    ensures Shows(db, OwnJoin(e, path), j, child) <==> Selected(db.collation, e.node.filter, child)
  {
    if e.node.filter.Some? {
      var at := path + [e.field];
      WithoutAliases(e.node.filter.value, at, db.collation, EnvOf(j[at := Some(child)]), child);
    }
  }

  /** A planned join puts side by side exactly the rows the selection relates. */
  lemma OwnJoinIsTheRelation(db: Database, e: Edge, path: Path, parent: Row, child: Row)
    requires WellFormedSet(e.node.filter)
    ensures !OnFilter(e, path).Fails? && Fits(OwnJoin(e, path)) && Local(db, OwnJoin(e, path))
    ensures OnHolds(db, OwnJoin(e, path), parent, child) <==> JoinsTo(db, e, parent, child)
  {
    forall j: JoinedRow, y: Row
      ensures !OnFilter(e, path).Fails? && Fits(OwnJoin(e, path))
      ensures Shows(db, OwnJoin(e, path), j, y) <==> Selected(db.collation, e.node.filter, y)
    {
      OwnJoinShows(db, e, path, j, y);
    }
    OwnJoinShows(db, e, path, map[], child);
  }

  // ---------------------------------------------------------------- shape of the plan

  predicate Below(p: Path, path: Path) {
    |p| > |path| && p[..|path|] == path
  }

  lemma BelowField(p: Path, path: Path, field: string)
    requires Below(p, path + [field])
    ensures Below(p, path) && p[|path|] == field
  {
    var at := path + [field];
    assert p[..|path|] == p[..|at|][..|path|] == path;
    assert p[|path|] == p[..|at|][|path|];
  }

  /** The planned tables are below the path, one branch per field, each joined to one that comes before it. */
  lemma {:induction false} PlanEdgesShape(edges: seq<Edge>, path: Path, known: set<Path>)
    requires WellFormedEdges(edges) && path in known
    requires forall p, e :: p in known && e in edges ==> !Below(p, path) || p[|path|] != e.field
    ensures PlanEdges(edges, path).Plan?
    ensures var bs := PlanEdges(edges, path).joins;
            AllFit(bs) && Ordered(bs, known) &&
            forall b :: b in bs ==> Below(b.join.path, path) && exists e :: e in edges && e.field == b.join.path[|path|]
    decreases edges
  {
    if edges != [] {
      var first := edges[0];
      assert first in edges;
      PlanEdgeShape(first, path, known);
      var head := PlanEdge(first, path).joins;
      assert forall e :: e in edges[1..] ==> e in edges && e.field != first.field;
      var known' := known + Paths(head);
      PlanEdgesShape(edges[1..], path, known');
      OrderedAppends(head, PlanEdges(edges[1..], path).joins, known);
    }
  }

  lemma {:induction false} PlanEdgeShape(e: Edge, path: Path, known: set<Path>)
    requires WellFormedSet(e.node.filter) && WellFormedEdges(e.node.edges) && path in known
    requires forall p :: p in known ==> !Below(p, path) || p[|path|] != e.field
    ensures PlanEdge(e, path).Plan?
    ensures var bs := PlanEdge(e, path).joins;
            bs != [] && bs[0] == OwnJoin(e, path) && bs[1..] == PlanEdges(e.node.edges, path + [e.field]).joins &&
            AllFit(bs) && Ordered(bs, known) &&
            forall b :: b in bs ==> Below(b.join.path, path) && b.join.path[|path|] == e.field
    decreases e
  {
    OwnJoinShows(Database(map[], map[], Collation((a, b) => false, (a, b) => false)), e, path, map[], map[]);
    var at := path + [e.field];
    assert at[..|path|] == path;
    forall p | Below(p, at)
      ensures Below(p, path) && p[|path|] == e.field
    {
      BelowField(p, path, e.field);
    }
    PlanEdgesShape(e.node.edges, at, known + {at});
  }

  lemma {:induction false} OrderedAppends(a: seq<BoundJoin>, b: seq<BoundJoin>, known: set<Path>)
    requires Ordered(a, known) && Ordered(b, known + Paths(a))
    ensures Ordered(a + b, known)
    decreases a
  {
    if a == [] {
      assert a + b == b && known + Paths(a) == known;
    } else {
      var known' := known + {a[0].join.path};
      assert (a + b)[1..] == a[1..] + b;
      assert Paths(a) == {a[0].join.path} + Paths(a[1..]) by {
        assert forall x :: x in a <==> x == a[0] || x in a[1..];
      }
      assert known' + Paths(a[1..]) == known + Paths(a);
      OrderedAppends(a[1..], b, known');
    }
  }

  /** Every selected field has its own join in the plan, and the joins below it are all there. */
  lemma {:induction false} PlanHolds(edges: seq<Edge>, path: Path, e: Edge)
    requires PlanEdges(edges, path).Plan? && e in edges
    ensures !OnFilter(e, path).Fails? && OwnJoin(e, path) in PlanEdges(edges, path).joins
    ensures PlanEdges(e.node.edges, path + [e.field]).Plan?
    ensures forall b :: b in PlanEdges(e.node.edges, path + [e.field]).joins ==> b in PlanEdges(edges, path).joins
    decreases edges
  {
    if e != edges[0] {
      PlanHolds(edges[1..], path, e);
    }
  }

  // ---------------------------------------------------------------- one relationship selected twice

  /** Sibling fields differ, at every type. */
  predicate FieldsDiffer(edges: seq<Edge>)
    decreases edges
  {
    DistinctFields(edges) && forall e :: e in edges ==> FieldsDiffer(e.node.edges)
  }

  predicate PathsDiffer(bs: seq<BoundJoin>) {
    forall i, k :: 0 <= i < k < |bs| ==> bs[i].join.path != bs[k].join.path
  }

  lemma {:induction false} PlannedBelow(edges: seq<Edge>, path: Path, b: BoundJoin) returns (e: Edge)
    requires PlanEdges(edges, path).Plan? && b in PlanEdges(edges, path).joins
    ensures e in edges && Below(b.join.path, path) && b.join.path[|path|] == e.field
    decreases edges
  {
    e := edges[0];
    var at := path + [e.field];
    if b == OwnJoin(e, path) {
      assert at[..|path|] == path;
    } else if b in PlanEdge(e, path).joins {
      var d := PlannedBelow(e.node.edges, at, b);
      BelowField(b.join.path, path, e.field);
    } else {
      e := PlannedBelow(edges[1..], path, b);
    }
  }

  lemma PlannedUnder(e: Edge, path: Path, b: BoundJoin)
    requires PlanEdge(e, path).Plan? && b in PlanEdge(e, path).joins
    ensures Below(b.join.path, path) && b.join.path[|path|] == e.field
  {
    var at := path + [e.field];
    if b == OwnJoin(e, path) {
      assert at[..|path|] == path;
    } else {
      var d := PlannedBelow(e.node.edges, at, b);
      BelowField(b.join.path, path, e.field);
    }
  }

  predicate NoPathShared(a: seq<BoundJoin>, b: seq<BoundJoin>) {
    forall x, y :: x in a && y in b ==> x.join.path != y.join.path
  }

  lemma PathsDifferAppend(a: seq<BoundJoin>, b: seq<BoundJoin>)
    ensures PathsDiffer(a + b) <==> PathsDiffer(a) && PathsDiffer(b) && NoPathShared(a, b)
  {
    var all := a + b;
    if PathsDiffer(all) {
      assert forall i :: 0 <= i < |a| ==> all[i] == a[i];
      assert forall i :: 0 <= i < |b| ==> all[|a| + i] == b[i];
    }
  }

  /** The planned tables have different paths exactly when no two sibling fields are the same. */
  lemma {:induction false} PathsDifferIff(edges: seq<Edge>, path: Path)
    requires PlanEdges(edges, path).Plan?
    ensures PathsDiffer(PlanEdges(edges, path).joins) <==> FieldsDiffer(edges)
    decreases edges
  {
    if edges != [] {
      var first, rest := edges[0], edges[1..];
      PathsDifferIff(rest, path);
      EdgePathsDifferIff(first, path);
      PathsDifferAppend(PlanEdge(first, path).joins, PlanEdges(rest, path).joins);
      BranchesApartIff(edges, path);
      assert forall e :: e in edges <==> e == first || e in rest;
    }
  }

  lemma {:induction false} EdgePathsDifferIff(e: Edge, path: Path)
    requires PlanEdge(e, path).Plan?
    ensures PathsDiffer(PlanEdge(e, path).joins) <==> FieldsDiffer(e.node.edges)
    decreases e
  {
    var at := path + [e.field];
    var below := PlanEdges(e.node.edges, at).joins;
    PathsDifferIff(e.node.edges, at);
    PathsDifferAppend([OwnJoin(e, path)], below);
    forall b | b in below
      ensures b.join.path != at
    {
      var d := PlannedBelow(e.node.edges, at, b);
    }
  }

  /** The tables under the first field and under the others have different paths iff no other field is the same. */
  lemma BranchesApartIff(edges: seq<Edge>, path: Path)
    requires edges != [] && PlanEdges(edges, path).Plan?
    ensures NoPathShared(PlanEdge(edges[0], path).joins, PlanEdges(edges[1..], path).joins) <==>
              forall e :: e in edges[1..] ==> e.field != edges[0].field
  {
    var first, rest := edges[0], edges[1..];
    var head, tail := PlanEdge(first, path).joins, PlanEdges(rest, path).joins;
    if forall e :: e in rest ==> e.field != first.field {
      BranchesApart(first, rest, path);
    } else {
      var e :| e in rest && e.field == first.field;
      PlanHolds(rest, path, e);
      assert OwnJoin(first, path) in head && OwnJoin(first, path).join.path == OwnJoin(e, path).join.path;
    }
  }

  lemma BranchesApart(first: Edge, rest: seq<Edge>, path: Path)
    requires PlanEdge(first, path).Plan? && PlanEdges(rest, path).Plan?
    requires forall e :: e in rest ==> e.field != first.field
    ensures NoPathShared(PlanEdge(first, path).joins, PlanEdges(rest, path).joins)
  {
    forall x, y | x in PlanEdge(first, path).joins && y in PlanEdges(rest, path).joins
      ensures x.join.path != y.join.path
    {
      PlannedUnder(first, path, x);
      var e := PlannedBelow(rest, path, y);
    }
  }
}
