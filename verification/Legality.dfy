/** Exactly which compiled requests a database takes. */
module Legality {
  import opened Truth
  import opened Names
  import opened Filters
  import opened FilterLaws
  import opened Sql
  import opened Query
  import opened Ordering
  import opened Statement
  import opened SingleMode
  import opened Labels
  import opened ColumnLaws
  import opened LabelRoundTrip

  /** The column of a root filter exists in the table of the type its path leads to. */
  ghost predicate RootColumnKnown(db: Database, q: Request, f: Filter) {
    exists m :: Type(q, m, TableOf(f, RootPath(q), Some({}))) && HasColumn(db, m.table, f.fieldName)
  }

  ghost predicate RootFilterKnown(db: Database, q: Request) {
    q.root.filter.Some? ==> ForFilters(q.root.filter.value, (f: Filter) => RootColumnKnown(db, q, f))
  }

  /** What a request asks of a database: columns that exist, and a sort by what is selected. */
  ghost predicate Takes(db: Database, q: Request) {
    SortSelected(q) && NamesKnown(db, q.root) && RootFilterKnown(db, q)
  }

  // ---------------------------------------------------------------- joins

  lemma {:induction false} JoinsKnownAppend(db: Database, tables: map<Path, string>, a: seq<Join>, b: seq<Join>)
    ensures TablesAfter(tables, a + b) == TablesAfter(TablesAfter(tables, a), b)
    ensures JoinsKnown(db, tables, a + b) <==>
              JoinsKnown(db, tables, a) && JoinsKnown(db, TablesAfter(tables, a), b)
    decreases a
  {
    if a == [] {
      assert a + b == b;
    } else {
      assert (a + b)[1..] == a[1..] + b;
      JoinsKnownAppend(db, tables[a[0].path := a[0].table], a[1..], b);
    }
  }

  /** A name of the FROM clause stands for the table that was joined under it. */
  lemma {:induction false} TableNamed(tables: map<Path, string>, js: seq<Join>, at: Path, table: string)
    requires at in tables ==> tables[at] == table
    requires forall j :: j in js && j.path == at ==> j.table == table
    ensures var all := TablesAfter(tables, js);
            (at in all <==> at in tables || exists j :: j in js && j.path == at) && (at in all ==> all[at] == table)
    decreases js
  {
    if js != [] {
      TableNamed(tables[js[0].path := js[0].table], js[1..], at, table);
      assert forall j :: j in js <==> j == js[0] || j in js[1..];
    }
  }

  /** No table in sight is at or below a field of these. */
  predicate Unseen(tables: map<Path, string>, p: Path, edges: seq<Edge>) {
    forall r, e :: r in tables && e in edges ==> !Below(r, p) || r[|p|] != e.field
  }

  lemma ConditionReads(db: Database, tables: map<Path, string>, e: Edge, p: Path)
    requires WellFormedSet(e.node.filter) && !OnFilter(e, p).Fails?
    requires p + [e.field] in tables && tables[p + [e.field]] == e.node.table
    ensures ConditionKnown(db, tables, OwnJoin(e, p).join.filter) <==> FilterKnown(db, e.node)
  {
    if e.node.filter.Some? {
      NamesOwnColumns(db, e.node.filter.value, p + [e.field], e.node.table);
    }
  }

  lemma JoinsInCons(b: BoundJoin, bs: seq<BoundJoin>)
    ensures JoinsIn([b] + bs) == [b.join] + JoinsIn(bs)
  {
  }

  lemma JoinsInAppend(a: seq<BoundJoin>, b: seq<BoundJoin>)
    ensures JoinsIn(a + b) == JoinsIn(a) + JoinsIn(b)
  {
  }

  /** The joins of the plan are known exactly when the relationships of the selection are. */
  lemma {:induction false} PlanKnown(db: Database, edges: seq<Edge>, p: Path, tables: map<Path, string>, table: string)
    requires WellFormedEdges(edges) && p in tables && tables[p] == table && Unseen(tables, p, edges)
    ensures PlanEdges(edges, p).Plan?
    ensures JoinsKnown(db, tables, JoinsIn(PlanEdges(edges, p).joins)) <==> EdgesKnown(db, table, edges)
    decreases edges
  {
    PlanEdgesShape(edges, p, {p});
    if edges != [] {
      var first, rest := edges[0], edges[1..];
      assert first in edges && forall e :: e in rest ==> e in edges && e.field != first.field;
      PlanEdgeKnown(db, first, p, tables, table);
      var head := PlanEdge(first, p).joins;
      var after := TablesAfter(tables, JoinsIn(head));
      AfterEdge(first, p, tables);
      PlanKnown(db, rest, p, after, table);
      JoinsInAppend(head, PlanEdges(rest, p).joins);
      JoinsKnownAppend(db, tables, JoinsIn(head), JoinsIn(PlanEdges(rest, p).joins));
      assert forall e :: e in edges <==> e == first || e in rest;
    }
  }

  /** One relationship brings only tables at or below its field into sight. */
  lemma AfterEdge(e: Edge, p: Path, tables: map<Path, string>)
    requires WellFormedSet(e.node.filter) && WellFormedEdges(e.node.edges) && PlanEdge(e, p).Plan? && p in tables
    ensures var after := TablesAfter(tables, JoinsIn(PlanEdge(e, p).joins));
            p in after && after[p] == tables[p] &&
            forall r :: r in after ==> r in tables || (Below(r, p) && r[|p|] == e.field)
  {
    var js := JoinsIn(PlanEdge(e, p).joins);
    PlanEdgeShape(e, p, {p});
    forall j | j in js
      ensures Below(j.path, p) && j.path[|p|] == e.field
    {
      var k :| 0 <= k < |js| && js[k] == j;
      assert PlanEdge(e, p).joins[k] in PlanEdge(e, p).joins;
    }
    TableNamed(tables, js, p, tables[p]);
    NamedSomewhere(tables, js);
  }

  lemma {:induction false} NamedSomewhere(tables: map<Path, string>, js: seq<Join>)
    ensures forall r :: r in TablesAfter(tables, js) ==> r in tables || exists j :: j in js && j.path == r
    decreases js
  {
    if js != [] {
      NamedSomewhere(tables[js[0].path := js[0].table], js[1..]);
      assert js[0] in js && forall j :: j in js[1..] ==> j in js;
    }
  }

  lemma {:induction false} PlanEdgeKnown(db: Database, e: Edge, p: Path, tables: map<Path, string>, table: string)
    requires WellFormedSet(e.node.filter) && WellFormedEdges(e.node.edges)
    requires p in tables && tables[p] == table && Unseen(tables, p, [e])
    ensures PlanEdge(e, p).Plan?
    ensures JoinsKnown(db, tables, JoinsIn(PlanEdge(e, p).joins)) <==>
              EdgeKnown(db, table, e) && EdgesKnown(db, e.node.table, e.node.edges)
    decreases e
  {
    var at := p + [e.field];
    assert at[..|p|] == p && Below(at, p);
    assert e in [e];
    PlanEdgeShape(e, p, {p});
    var own, below := OwnJoin(e, p), PlanEdges(e.node.edges, at).joins;
    JoinsInCons(own, below);
    var next := tables[at := e.node.table];
    assert PlanEdge(e, p).joins == [own] + below;
    forall r, d | r in next && d in e.node.edges
      ensures !Below(r, at) || r[|at|] != d.field
    {
      if Below(r, at) {
        BelowField(r, p, e.field);
      }
    }
    PlanKnown(db, e.node.edges, at, next, e.node.table);
    ConditionReads(db, next, e, p);
    assert JoinsIn(PlanEdge(e, p).joins)[1..] == JoinsIn(below);
  }

  // ---------------------------------------------------------------- the tables of a request

  function TablesOf(q: Request): map<Path, string>
    requires PlanEdges(q.root.edges, RootPath(q)).Plan?
  {
    TablesAfter(map[RootPath(q) := q.root.table], JoinsIn(PlanEdges(q.root.edges, RootPath(q)).joins))
  }

  /** The names in sight are the paths of the types, and each stands for the table of its type. */
  lemma TypeInSight(q: Request, r: Path)
    requires Proper(q) && PlanEdges(q.root.edges, RootPath(q)).Plan?
    ensures r in TablesOf(q) <==> exists m :: Type(q, m, r)
    ensures r in TablesOf(q) ==> forall m :: Type(q, m, r) ==> TablesOf(q)[r] == m.table
  {
    var bs := PlanEdges(q.root.edges, RootPath(q)).joins;
    var js := JoinsIn(bs);
    NamedSomewhere(map[RootPath(q) := q.root.table], js);
    forall j | j in js && j.path == r
      ensures exists m :: Type(q, m, r) && j.table == m.table
    {
      var k :| 0 <= k < |js| && js[k] == j;
      var m := PlannedTable(q.root, q.root.edges, RootPath(q), bs[k]);
      assert Type(q, m, r);
    }
    assert Type(q, q.root, RootPath(q));
    forall m | Type(q, m, r)
      ensures r in TablesOf(q) && TablesOf(q)[r] == m.table
    {
      TypeHasName(q, m, r);
    }
  }

  lemma TypeHasName(q: Request, m: Node, r: Path)
    requires Proper(q) && PlanEdges(q.root.edges, RootPath(q)).Plan? && Type(q, m, r)
    ensures r in TablesOf(q) && TablesOf(q)[r] == m.table
  {
    var bs := PlanEdges(q.root.edges, RootPath(q)).joins;
    var js := JoinsIn(bs);
    forall j | j in js && j.path == r
      ensures j.table == m.table
    {
      var k :| 0 <= k < |js| && js[k] == j;
      var m' := PlannedTable(q.root, q.root.edges, RootPath(q), bs[k]);
      OneTypePerPath(q.root, RootPath(q), m, m', r);
    }
    if r == RootPath(q) {
      OnlyRootAtRoot(q.root, RootPath(q), m);
    } else {
      var b := TypeIsPlanned(q.root, RootPath(q), m, r);
      var k :| 0 <= k < |bs| && bs[k] == b;
      assert js[k].path == r;
    }
    TableNamed(map[RootPath(q) := q.root.table], js, r, m.table);
  }

  lemma {:induction false} PlannedTable(n: Node, edges: seq<Edge>, p: Path, b: BoundJoin) returns (m: Node)
    requires (forall e :: e in edges ==> e in n.edges) && PlanEdges(edges, p).Plan? && b in PlanEdges(edges, p).joins
    ensures Occurs(n, p, m, b.join.path) && b.join.table == m.table
    decreases n, |edges|
  {
    var e := edges[0];
    assert e in n.edges && PlanEdge(e, p).Plan?;
    var first := PlanEdge(e, p).joins;
    if b in first {
      if b == OwnJoin(e, p) {
        m := e.node;
        assert Occurs(e.node, p + [e.field], m, p + [e.field]);
      } else {
        m := PlannedTable(e.node, e.node.edges, p + [e.field], b);
      }
    } else {
      m := PlannedTable(n, edges[1..], p, b);
    }
  }

  // ---------------------------------------------------------------- columns of the selection

  /** The selected columns of one type and of the types below it exist. */
  ghost predicate AllKnown(db: Database, n: Node, p: Path) {
    forall m, r :: Occurs(n, p, m, r) ==> OwnKnown(db, m)
  }

  predicate OwnKnown(db: Database, m: Node) {
    forall f :: f in m.columns ==> HasColumn(db, m.table, f)
  }

  lemma {:induction false} KnownEverywhere(db: Database, n: Node, p: Path)
    ensures ColumnsKnown(db, n) <==> AllKnown(db, n, p)
    decreases n
  {
    forall e | e in n.edges
      ensures ColumnsKnown(db, e.node) <==> AllKnown(db, e.node, p + [e.field])
    {
      KnownEverywhere(db, e.node, p + [e.field]);
    }
    if ColumnsKnown(db, n) {
      forall m, r | Occurs(n, p, m, r)
        ensures OwnKnown(db, m)
      {
        if !(m == n && r == p) {
          var e :| e in n.edges && Occurs(e.node, p + [e.field], m, r);
        }
      }
    }
    if AllKnown(db, n, p) {
      assert Occurs(n, p, n, p) && OwnKnown(db, n);
      forall e | e in n.edges
        ensures AllKnown(db, e.node, p + [e.field])
      {
        forall m, r | Occurs(e.node, p + [e.field], m, r)
          ensures OwnKnown(db, m)
        {
          assert Occurs(n, p, m, r);
        }
      }
    }
  }

  lemma SelectedColumnsKnown(db: Database, q: Request)
    requires Proper(q) && PlanEdges(q.root.edges, RootPath(q)).Plan?
    ensures (forall c :: IsSelected(q.root, RootPath(q), c) ==> Known(db, TablesOf(q), c)) <==> ColumnsKnown(db, q.root)
  {
    KnownEverywhere(db, q.root, RootPath(q));
    if ColumnsKnown(db, q.root) {
      forall c | IsSelected(q.root, RootPath(q), c)
        ensures Known(db, TablesOf(q), c)
      {
        var m :| Occurs(q.root, RootPath(q), m, c.table) && c.field in m.columns;
        TypeHasName(q, m, c.table);
        assert OwnKnown(db, m);
      }
    }
    if forall c :: IsSelected(q.root, RootPath(q), c) ==> Known(db, TablesOf(q), c) {
      forall m, r | Occurs(q.root, RootPath(q), m, r)
        ensures OwnKnown(db, m)
      {
        TypeHasName(q, m, r);
        forall f | f in m.columns
          ensures HasColumn(db, m.table, f)
        {
          assert IsSelected(q.root, RootPath(q), Column(r, f));
        }
      }
    }
  }

  lemma LabelledIffSelected(q: Request, c: Column)
    requires Proper(q)
    ensures c in LabelsOf(q).Values <==> IsSelected(q.root, RootPath(q), c)
  {
    LabelsAdd(q);
    if IsSelected(q.root, RootPath(q), c) {
      LabelStands(q, c);
      assert LabelsOf(q)[LabelIn(q, c)] in LabelsOf(q).Values;
    }
  }

  /** All labelled columns are in sight exactly when the selected columns exist. */
  lemma LabelsKnown(db: Database, q: Request)
    requires Proper(q) && PlanEdges(q.root.edges, RootPath(q)).Plan?
    ensures (forall l :: l in LabelsOf(q) ==> Known(db, TablesOf(q), LabelsOf(q)[l])) <==> ColumnsKnown(db, q.root)
  {
    var labels := LabelsOf(q);
    SelectedColumnsKnown(db, q);
    forall c
      ensures c in labels.Values <==> IsSelected(q.root, RootPath(q), c)
    {
      LabelledIffSelected(q, c);
    }
    assert forall l :: l in labels ==> labels[l] in labels.Values;
  }

  // ---------------------------------------------------------------- WHERE and ORDER BY

  lemma WhereKnown(db: Database, q: Request)
    requires Proper(q) && Sound(q)
    ensures PlanEdges(q.root.edges, RootPath(q)).Plan?
    ensures ConditionKnown(db, TablesOf(q), WhereOf(Planning(q).1)) <==> RootFilterKnown(db, q)
  {
    PlanningSucceeds(q);
    if q.root.filter.Some? {
      var s, aliases := q.root.filter.value, Some({RootPath(q)} + Paths(Planning(q).0.joins));
      var known := (c: Column) => Known(db, TablesOf(q), c);
      RootEmits(q);
      NamesEveryFilter(s, RootPath(q), aliases, known);
      var there, here := PutWhere(RootPath(q), aliases, known), (f: Filter) => RootColumnKnown(db, q, f);
      forall f: Filter
        ensures there(f) <==> here(f)
      {
        RootColumnInSight(db, q, f, aliases);
      }
      assert forall c :: known(c) <==> Known(db, TablesOf(q), c);
      ForFiltersSame(s, there, here);
    }
  }

  lemma RootEmits(q: Request)
    requires Sound(q) && q.root.filter.Some? && Planning(q).0.Plan?
    ensures Compile(q.root.filter.value, RootPath(q), Some({RootPath(q)} + Paths(Planning(q).0.joins))).Emit?
  {
    EmittedMeaning(q.root.filter.value, RootPath(q), Some({RootPath(q)} + Paths(Planning(q).0.joins)),
                   Collation((a, b) => false, (a, b) => false), (c: Column) => Null);
  }

  lemma RootColumnInSight(db: Database, q: Request, f: Filter, aliases: Option<set<Path>>)
    requires Proper(q) && PlanEdges(q.root.edges, RootPath(q)).Plan? && aliases.Some?
    ensures Known(db, TablesOf(q), Column(TableOf(f, RootPath(q), aliases), f.fieldName)) <==> RootColumnKnown(db, q, f)
  {
    TypeInSight(q, TableOf(f, RootPath(q), aliases));
  }

  /** The outer SELECT is ordered by what it selects exactly when the sort field is selected. */
  lemma OrderedBySelected(q: Request)
    requires Proper(q) && PlanEdges(q.root.edges, RootPath(q)).Plan?
    ensures var keys := SortKeys(q) + JoinKeys(q, PlanEdges(q.root.edges, RootPath(q)).joins);
            OrdersSelected(keys, LabelsOf(q)) <==> SortSelected(q)
  {
    var bs := PlanEdges(q.root.edges, RootPath(q)).joins;
    var keys, field := SortKeys(q) + JoinKeys(q, bs), if q.sort.field.Some? then q.sort.field.value else RootId(q);
    forall f
      ensures Column(RootPath(q), f) in LabelsOf(q).Values <==> f in q.root.columns
    {
      RootLabelled(q, f);
    }
    assert keys[0] in keys && keys[0].column == Column(RootPath(q), field);
    forall k | k in JoinKeys(q, bs)
      ensures k.column in LabelsOf(q).Values
    {
      var i :| 0 <= i < |bs| && JoinKeys(q, bs)[i] == k;
      JoinKeyLabelled(q, bs[i]);
    }
    assert forall k :: k in keys <==> k in SortKeys(q) || k in JoinKeys(q, bs);
  }

  lemma RootLabelled(q: Request, f: string)
    requires Proper(q)
    ensures Column(RootPath(q), f) in LabelsOf(q).Values <==> f in q.root.columns
  {
    LabelledIffSelected(q, Column(RootPath(q), f));
    assert Occurs(q.root, RootPath(q), q.root, RootPath(q));
    if IsSelected(q.root, RootPath(q), Column(RootPath(q), f)) {
      var m :| Occurs(q.root, RootPath(q), m, RootPath(q)) && f in m.columns;
      OnlyRootAtRoot(q.root, RootPath(q), m);
    }
  }

  lemma JoinKeyLabelled(q: Request, b: BoundJoin)
    requires Proper(q) && PlanEdges(q.root.edges, RootPath(q)).Plan?
    requires b in PlanEdges(q.root.edges, RootPath(q)).joins
    ensures Column(b.join.path, KeyFor(q, b.join.path)) in LabelsOf(q).Values
  {
    var m := PlanOccurs(q.root, q.root.edges, RootPath(q), b);
    KeyForIs(q, m, b.join.path);
    TypeNamed(q, m, b.join.path);
    assert IsSelected(q.root, RootPath(q), Column(b.join.path, m.key));
    LabelledIffSelected(q, Column(b.join.path, m.key));
  }

  /** Labelled ordering columns of a request with known columns are in sight. */
  lemma OrderKnown(db: Database, q: Request, keys: seq<OrderKey>)
    requires Proper(q) && PlanEdges(q.root.edges, RootPath(q)).Plan?
    requires ColumnsKnown(db, q.root) && OrdersSelected(keys, LabelsOf(q))
    ensures forall k :: k in keys ==> Known(db, TablesOf(q), k.column)
  {
    LabelsKnown(db, q);
  }

  // ---------------------------------------------------------------- the whole request

  /** What both SELECTs of a request have in common: its joins and its WHERE clause. */
  predicate SameClauses(q: Request, s: SelectText) {
    PlanEdges(q.root.edges, RootPath(q)).Plan? && s.from == q.root.table &&
    s.joins == JoinsIn(PlanEdges(q.root.edges, RootPath(q)).joins) && s.where_ == WhereOf(Planning(q).1)
  }

  ghost predicate ClausesKnown(db: Database, q: Request) {
    EdgesKnown(db, q.root.table, q.root.edges) && RootFilterKnown(db, q)
  }

  lemma SelectKnownIff(db: Database, q: Request, s: SelectText)
    requires Proper(q) && Sound(q) && SameClauses(q, s)
    ensures TablesIn(s) == TablesOf(q)
    ensures var ordered := forall k :: k in s.orderings ==> Known(db, TablesOf(q), k.column);
            SelectKnown(db, s) <==> ClausesKnown(db, q) && ordered
  {
    var start := map[RootPath(q) := q.root.table];
    assert Unseen(start, RootPath(q), q.root.edges);
    PlanKnown(db, q.root.edges, RootPath(q), start, q.root.table);
    WhereKnown(db, q);
  }

  lemma SelectsOf(q: Request)
    requires Sound(q) && !q.aggregate
    ensures CompileRequest(q).Compiled? && CompileRequest(q).text.Paged?
    ensures var text := CompileRequest(q).text;
            SameClauses(q, text.sub) && SameClauses(q, text.outer) && text.sub.orderings == SortKeys(q) &&
            text.outer.orderings == SortKeys(q) + JoinKeys(q, PlanEdges(q.root.edges, RootPath(q)).joins)
  {
    PlanningSucceeds(q);
  }

  /**
   Exactly which requests a database takes: the columns of the selection, of its joins and of its filters exist where
   the compiler looks for them, and a sort field is selected. Keys and the keys of joined types are always selected.
   */
  lemma LegalIff(db: Database, q: Request)
    requires Proper(q) && Sound(q) && !q.aggregate
    ensures CompileRequest(q).Compiled? && CompileRequest(q).text.Paged?
    ensures Legal(db, CompileRequest(q).text, LabelsOf(q)) <==> Takes(db, q)
  {
    SelectsOf(q);
    var text := CompileRequest(q).text;
    SelectKnownIff(db, q, text.sub);
    SelectKnownIff(db, q, text.outer);
    OrderedBySelected(q);
    LabelsKnown(db, q);
    assert forall k :: k in text.sub.orderings ==> k in text.outer.orderings;
    if ColumnsKnown(db, q.root) && OrdersSelected(text.outer.orderings, LabelsOf(q)) {
      OrderKnown(db, q, text.outer.orderings);
    }
  }

  // ---------------------------------------------------------------- a relationship selected twice

  lemma {:induction false} KnownPathsDiffer(db: Database, tables: map<Path, string>, bs: seq<BoundJoin>)
    requires JoinsKnown(db, tables, JoinsIn(bs))
    ensures PathsDiffer(bs) && forall b :: b in bs ==> b.join.path !in tables
    decreases bs
  {
    if bs != [] {
      assert JoinsIn(bs)[1..] == JoinsIn(bs[1..]);
      KnownPathsDiffer(db, tables[bs[0].join.path := bs[0].join.table], bs[1..]);
      assert forall i :: 0 < i < |bs| ==> bs[i] in bs[1..];
      assert forall b :: b in bs <==> b == bs[0] || b in bs[1..];
    }
  }

  /** A relationship selected twice gives two tables one alias, whatever it is called: no database takes that. */
  lemma SelectedTwiceIsRefused(db: Database, q: Request)
    requires CompileRequest(q).Compiled? && !q.aggregate && !FieldsDiffer(q.root.edges)
    ensures CompileRequest(q).text.Paged? && !Legal(db, CompileRequest(q).text, LabelsOf(q))
  {
    var plan := PlanEdges(q.root.edges, RootPath(q)).joins;
    PathsDifferIff(q.root.edges, RootPath(q));
    if JoinsKnown(db, map[RootPath(q) := q.root.table], JoinsIn(plan)) {
      KnownPathsDiffer(db, map[RootPath(q) := q.root.table], plan);
    }
  }

  // ---------------------------------------------------------------- a concrete request

  /** `Order_query(sort: {field: "total"}) { id }` */
  const SortedByTotal := Request(
    Node("Order", "id", ["id"], None, []), Some(0), Some(100), Sort(Some("total"), false), false)

  lemma SortedByTotalIsProper()
    ensures Proper(SortedByTotal) && Sound(SortedByTotal)
  {
    assert IsName("Order") && IsName("id");
  }

  /** It is a request like any other, and no database takes its statement. */
  lemma UnselectedSortIsRefused(db: Database)
    ensures Proper(SortedByTotal) && Sound(SortedByTotal)
    ensures CompileRequest(SortedByTotal).Compiled? && CompileRequest(SortedByTotal).text.Paged?
    ensures !Legal(db, CompileRequest(SortedByTotal).text, LabelsOf(SortedByTotal))
  {
    SortedByTotalIsProper();
    assert !SortSelected(SortedByTotal) by {
      assert |"total"| != |"id"|;
    }
    LegalIff(db, SortedByTotal);
  }
}
