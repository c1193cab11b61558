/**
 What a request asks for, read off the request alone: a filter holds of a row when some choice of related rows makes it
 true, its dotted names walked from that row. Exactly when the compiled filters select this.
 */
module Asked {
  import opened Truth
  import opened Filters
  import opened FilterLaws
  import opened Sql
  import opened Query

  // ---------------------------------------------------------------- rows and the rows related to them

  /** A row and, under some of its fields, one of the rows related to it. */
  datatype Related = Related(row: Row, below: map<string, Related>)

  /** The row a walk along fields leads to. */
  function RowAt(t: Related, path: Path): Option<Row>
    decreases |path|
  {
    if path == [] then Some(t.row) else if path[0] in t.below then RowAt(t.below[path[0]], path[1..]) else None
  }

  function WorldOf(t: Related): Env {
    (c: Column) => match RowAt(t, c.table) case Some(row) => Col(row, c.field) case None => Null
  }

  // ---------------------------------------------------------------- what is asked for

  /** The filter of the type holds of the row, for some rows related to it. */
  ghost predicate Asks(db: Database, n: Node, x: Row)
    decreases n
  {
    n.filter.Some? ==>
      exists t: Related :: t.row == x && Relates(db, n.edges, t) &&
                  Meaning(n.filter.value, [], db.collation, WorldOf(t)) == Yes
  }

  /** Every row below is one the selection asks for under its field. */
  ghost predicate Relates(db: Database, edges: seq<Edge>, t: Related)
    decreases edges
  {
    forall f :: f in t.below ==>
      exists e :: e in edges && e.field == f && AskedChild(db, e, t.row, t.below[f].row) &&
                  Relates(db, e.node.edges, t.below[f])
  }

  /** The child is related to its parent, and its own filter holds. */
  ghost predicate AskedChild(db: Database, e: Edge, parent: Row, child: Row)
    decreases e
  {
    child in RowsOf(db, e.node.table) &&
    KeysMeet(db, e.bridge, e.childColumn, Col(parent, e.parentColumn), child) && Asks(db, e.node, child)
  }

  /** The nested objects a selection asks for. */
  ghost function BuildAsked(db: Database, n: Node, row: Row): Tree
    decreases n
  {
    Tree(ScalarsOf(n, row),
         set e, y | e in n.edges && y in RowsOf(db, e.node.table) && AskedChild(db, e, row, y) ::
           (e.field, BuildAsked(db, e.node, y)))
  }

  // ---------------------------------------------------------------- when the compiled filters select it

  /** No set without an operator carries a `not`, and no name is dotted. */
  predicate ReadAsWritten(filter: Option<FilterSet>) {
    filter.Some? ==> NoLoneNegation(filter.value) && ForFilters(filter.value, Undotted)
  }

  /** So at every nested type. */
  predicate AllReadAsWritten(edges: seq<Edge>) {
    forall e :: e in edges ==> ReadAsWritten(e.node.filter) && AllReadAsWritten(e.node.edges)
  }

  lemma UndottedIsOfRow(s: FilterSet, co: Collation, t: Related)
    requires WellFormed(s) && ForFilters(s, Undotted)
    ensures Meaning(s, [], co, WorldOf(t)) == Meaning(s, [], co, RowEnv(t.row))
  {
    ForFiltersWeaken(s, Undotted, ClearerIn([], WorldOf(t), [], RowEnv(t.row)));
    ForFiltersWeaken(s, Undotted, ClearerIn([], RowEnv(t.row), [], WorldOf(t)));
    SameMeaning(s, [], WorldOf(t), [], RowEnv(t.row), co);
  }

  /** A filter without dotted names asks something of the row alone. */
  lemma UndottedAsks(db: Database, n: Node, x: Row)
    requires WellFormedSet(n.filter) && n.filter.Some? && ForFilters(n.filter.value, Undotted)
    ensures Asks(db, n, x) <==> Meaning(n.filter.value, [], db.collation, RowEnv(x)) == Yes
  {
    var alone := Related(x, map[]);
    assert Relates(db, n.edges, alone);
    forall t: Related | t.row == x
      ensures Meaning(n.filter.value, [], db.collation, WorldOf(t)) ==
              Meaning(n.filter.value, [], db.collation, RowEnv(x))
    {
      UndottedIsOfRow(n.filter.value, db.collation, t);
    }
  }

  lemma SelectedIsAsked(db: Database, n: Node, x: Row)
    requires WellFormedSet(n.filter) && ReadAsWritten(n.filter)
    ensures Selected(db.collation, n.filter, x) <==> Asks(db, n, x)
  {
    if n.filter.Some? {
      UndottedAsks(db, n, x);
      DropLoneKeeps(n.filter.value);
    }
  }

  lemma JoinedIsAsked(db: Database, e: Edge, parent: Row, child: Row)
    requires WellFormedSet(e.node.filter) && ReadAsWritten(e.node.filter)
    ensures JoinsTo(db, e, parent, child) <==> AskedChild(db, e, parent, child)
  {
    SelectedIsAsked(db, e.node, child);
  }

  /** Nested loops over the compiled filters build what is asked for. */
  lemma {:induction false} BuildIsAsked(db: Database, n: Node, x: Row)
    requires WellFormedEdges(n.edges) && AllReadAsWritten(n.edges)
    ensures Build(db, n, x) == BuildAsked(db, n, x)
    decreases n
  {
    forall e, y | e in n.edges && y in RowsOf(db, e.node.table)
      ensures JoinsTo(db, e, x, y) <==> AskedChild(db, e, x, y)
      ensures Build(db, e.node, y) == BuildAsked(db, e.node, y)
    {
      JoinedIsAsked(db, e, x, y);
      BuildIsAsked(db, e.node, y);
    }
    var built, asked := Build(db, n, x).kids, BuildAsked(db, n, x).kids;
    forall kid | kid in built
      ensures kid in asked
    {
      var e, y :| e in n.edges && y in RowsOf(db, e.node.table) && JoinsTo(db, e, x, y) &&
                  kid == (e.field, Build(db, e.node, y));
    }
    forall kid | kid in asked
      ensures kid in built
    {
      var e, y :| e in n.edges && y in RowsOf(db, e.node.table) && AskedChild(db, e, x, y) &&
                  kid == (e.field, BuildAsked(db, e.node, y));
    }
  }

  // ---------------------------------------------------------------- and when not

  /** One filter as a set of its own. */
  function Alone(f: Filter): FilterSet {
    FilterSet(Filters([f]), NoSets, None, false)
  }

  /** The sets of a tree, and its filters one by one. */
  ghost predicate IsPart(s: FilterSet, t: FilterSet) {
    t in Subsets(s) || exists u, f :: u in Subsets(s) && u.filters.Filters? && f in u.filters.list && t == Alone(f)
  }

  /** The relationships of a path are selected. */
  predicate Leads(edges: seq<Edge>, path: Path)
    decreases |path|
  {
    path == [] || exists e :: e in edges && e.field == path[0] && Leads(e.node.edges, path[1..])
  }

  predicate LeadsFrom(n: Node, f: Filter) {
    |f.path| > 1 ==> Leads(n.edges, f.path[1..])
  }

  /**
   Compiled without aliases the tree selects what it asks for: in every database, of every row, on every type that
   selects the relationships its names walk along.
   */
  ghost predicate SelectsAsAsked(s: FilterSet) {
    forall db: Database, n: Node, x: Row ::
      n.filter == Some(s) && ForFilters(s, (f: Filter) => LeadsFrom(n, f)) ==>
        (Selected(db.collation, n.filter, x) <==> Asks(db, n, x))
  }

  lemma {:induction false} WrittenBelow(s: FilterSet, t: FilterSet)
    requires WellFormed(s) && NoLoneNegation(s) && ForFilters(s, Undotted) && t in Subsets(s)
    ensures WellFormed(t) && NoLoneNegation(t) && ForFilters(t, Undotted)
    decreases s
  {
    if t != s {
      AllWrittenBelow(s.filtersets.list, t);
    }
  }

  lemma {:induction false} AllWrittenBelow(ss: seq<FilterSet>, t: FilterSet)
    requires AllWellFormed(ss) && NoLoneNegations(ss) && ForAllFilters(ss, Undotted) && t in SubsetsAll(ss)
    ensures WellFormed(t) && NoLoneNegation(t) && ForFilters(t, Undotted)
    decreases ss
  {
    if t in Subsets(ss[0]) {
      WrittenBelow(ss[0], t);
    } else {
      AllWrittenBelow(ss[1..], t);
    }
  }

  lemma PartIsWritten(s: FilterSet, t: FilterSet)
    requires WellFormed(s) && NoLoneNegation(s) && ForFilters(s, Undotted) && IsPart(s, t)
    ensures WellFormed(t) && NoLoneNegation(t) && ForFilters(t, Undotted)
  {
    if t in Subsets(s) {
      WrittenBelow(s, t);
    } else {
      var u, f :| u in Subsets(s) && u.filters.Filters? && f in u.filters.list && t == Alone(f);
      WrittenBelow(s, u);
    }
  }

  // A dotted filter: the walk leads to another row than the compiled condition looks at.

  function Chain(path: Path, k: string, filter: Option<FilterSet>): Node
    decreases |path|
  {
    Node("t", k, [k], filter,
         if path == [] then [] else [Edge(path[0], k, k, true, None, Chain(path[1..], k, None))])
  }

  function ChainOf(x: Row, r: Row, path: Path): Related
    decreases |path|
  {
    Related(x, if path == [] then map[] else map[path[0] := ChainOf(r, r, path[1..])])
  }

  lemma {:induction false} ChainRelates(db: Database, path: Path, k: string, x: Row, r: Row)
    requires r in RowsOf(db, "t") && Equal3(Col(x, k), Col(r, k)) == Yes && Equal3(Col(r, k), Col(r, k)) == Yes
    ensures Relates(db, Chain(path, k, None).edges, ChainOf(x, r, path)) && Leads(Chain(path, k, None).edges, path)
    ensures path != [] ==> RowAt(ChainOf(x, r, path), path) == Some(r)
    decreases |path|
  {
    if path != [] {
      ChainRelates(db, path[1..], k, r, r);
      var e := Chain(path, k, None).edges[0];
      assert AskedChild(db, e, x, r);
      assert e in Chain(path, k, None).edges;
      assert ChainOf(r, r, path[1..]).row == r;
      if path[1..] == [] {
        assert RowAt(ChainOf(r, r, []), []) == Some(r);
      }
    }
  }

  /** A dotted filter by itself does not select what it asks for. */
  lemma DottedMisses(f: Filter)
    requires GoodFilter(f) && NonNull(f) && !Undotted(f)
    ensures !SelectsAsAsked(Alone(f))
  {
    var co, v := CanBe(f, true);
    var path, k := f.path[1..], f.fieldName + "k";
    var r, x := map[k := Val("k"), f.fieldName := Val(v)], map[k := Val("k")];
    var db := Database(map["t" := [r]], map[], co);
    var s := Alone(f);
    var n := Chain(path, k, Some(s));
    assert k != f.fieldName by {
      assert |k| == |f.fieldName| + 1;
    }
    ChainRelates(db, path, k, x, r);
    var t := ChainOf(x, r, path);
    assert n.edges == Chain(path, k, None).edges;
    assert Intended(f, []) == Column(path, f.fieldName) by {
      assert [] + path == path;
    }
    assert WorldOf(t)(Column(path, f.fieldName)) == Val(v);
    assert Meaning(s, [], co, WorldOf(t)) == Yes;
    assert Asks(db, n, x);
    assert Col(x, f.fieldName) == Null;
    assert RowEnv(x)(Intended(f, [])) == Null;
    NothingSelected(f, co, x);
    assert ForFilters(s, (g: Filter) => LeadsFrom(n, g));
  }

  lemma NothingSelected(f: Filter, co: Collation, x: Row)
    requires GoodFilter(f) && Col(x, f.fieldName) == Null
    ensures !Selected(co, Some(Alone(f)), x)
  {
    assert DropLone(Alone(f)) == Alone(f);
    if f.value.Many? {
      NullEqualsNothing(f.value.vs);
    }
  }

  lemma {:induction false} SomeDotted(s: FilterSet) returns (f: Filter)
    requires WellFormed(s) && AllNonNull(s) && !ForFilters(s, Undotted)
    ensures GoodFilter(f) && NonNull(f) && !Undotted(f) && IsPart(s, Alone(f))
    decreases s
  {
    if s.filters.Filters? {
      f :| f in s.filters.list && !Undotted(f);
      assert s in Subsets(s);
    } else {
      f := SomeDottedOfAll(s.filtersets.list);
      var u :| u in SubsetsAll(s.filtersets.list) && u.filters.Filters? && f in u.filters.list;
      assert u in Subsets(s);
    }
  }

  lemma {:induction false} SomeDottedOfAll(ss: seq<FilterSet>) returns (f: Filter)
    requires AllWellFormed(ss) && ForAllFilters(ss, NonNull) && !ForAllFilters(ss, Undotted)
    ensures GoodFilter(f) && NonNull(f) && !Undotted(f)
    ensures exists u :: u in SubsetsAll(ss) && u.filters.Filters? && f in u.filters.list
    decreases ss
  {
    if ForFilters(ss[0], Undotted) {
      f := SomeDottedOfAll(ss[1..]);
    } else {
      f := SomeDotted(ss[0]);
    }
  }

  // A lone `not`: the condition says the opposite of what was asked.

  lemma {:induction false} SomeLone(s: FilterSet) returns (t: FilterSet)
    requires WellFormed(s) && AllNonNull(s) && ForFilters(s, Undotted) && !NoLoneNegation(s)
    ensures t in Subsets(s) && WellFormed(t) && AllNonNull(t) && ForFilters(t, Undotted)
    ensures t.op.None? && t.negation && NoLoneNegation(t.(negation := false))
    decreases s
  {
    if s.filtersets.Sets? && !NoLoneNegations(s.filtersets.list) {
      t := SomeLoneOfAll(s.filtersets.list);
    } else {
      t := s;
    }
  }

  lemma {:induction false} SomeLoneOfAll(ss: seq<FilterSet>) returns (t: FilterSet)
    requires AllWellFormed(ss) && ForAllFilters(ss, NonNull) && ForAllFilters(ss, Undotted) && !NoLoneNegations(ss)
    ensures t in SubsetsAll(ss) && WellFormed(t) && AllNonNull(t) && ForFilters(t, Undotted)
    ensures t.op.None? && t.negation && NoLoneNegation(t.(negation := false))
    decreases ss
  {
    if NoLoneNegation(ss[0]) {
      t := SomeLoneOfAll(ss[1..]);
    } else {
      t := SomeLone(ss[0]);
    }
  }

  /** A row that has a text in every column the tree names. */
  lemma FullRow(s: FilterSet) returns (x: Row)
    requires WellFormed(s)
    ensures ForFilters(s, (f: Filter) => Col(x, f.fieldName) == Val(""))
  {
    WithoutAliases(s, [], Collation((a, b) => false, (a, b) => false), (c: Column) => Null, map[]);
    var named := NamedIn(Compile(s, [], None).condition);
    var fields := set c | c in named :: c.field;
    x := map f | f in fields :: Val("");
    var full := (c: Column) => Col(x, c.field) == Val("");
    NamesEveryFilter(s, [], None, full);
    assert forall c :: c in named ==> full(c);
    ForFiltersWeaken(s, PutWhere([], None, full), (f: Filter) => Col(x, f.fieldName) == Val(""));
  }

  lemma LoneMisses(t: FilterSet)
    requires WellFormed(t) && AllNonNull(t) && ForFilters(t, Undotted)
    requires t.op.None? && t.negation && NoLoneNegation(t.(negation := false))
    ensures !SelectsAsAsked(t)
  {
    var x := FullRow(t);
    var co := Collation((a, b) => false, (a, b) => false);
    var db, n := Database(map[], map[], co), Node("t", "", [], Some(t), []);
    var full := (f: Filter) => Col(x, f.fieldName) == Val("");
    ForFiltersWeaken(t, full, ClearerIn([], RowEnv(x), [], SomeRow()));
    ForFiltersWeaken(t, full, ClearerIn([], SomeRow(), [], RowEnv(x)));
    SameMeaning(t, [], RowEnv(x), [], SomeRow(), co);
    Decided(t, [], co);
    DropLoneKeeps(t.(negation := false));
    assert DropLone(t) == t.(negation := false);
    UndottedAsks(db, n, x);
    ForFiltersWeaken(t, Undotted, (f: Filter) => LeadsFrom(n, f));
  }

  /**
   Exactly when filters compiled without aliases select what they ask for: every set and every filter of a tree does, in
   every database and wherever it may stand, iff no set without an operator carries a `not` and no name is dotted.
   */
  lemma SelectsAsAskedIff(s: FilterSet)
    requires WellFormed(s) && AllNonNull(s)
    ensures (forall t :: IsPart(s, t) ==> SelectsAsAsked(t)) <==> NoLoneNegation(s) && ForFilters(s, Undotted)
  {
    if NoLoneNegation(s) && ForFilters(s, Undotted) {
      forall t | IsPart(s, t)
        ensures SelectsAsAsked(t)
      {
        PartIsWritten(s, t);
        forall db: Database, n: Node, x: Row | n.filter == Some(t)
          ensures Selected(db.collation, n.filter, x) <==> Asks(db, n, x)
        {
          SelectedIsAsked(db, n, x);
        }
      }
    } else if ForFilters(s, Undotted) {
      var t := SomeLone(s);
      LoneMisses(t);
      assert IsPart(s, t);
    } else {
      var f := SomeDotted(s);
      DottedMisses(f);
    }
  }

  function Lone(t: FilterSet, negation: bool): FilterSet {
    FilterSet(NoFilters, Sets([t]), None, negation)
  }

  lemma LoneMeans(t: FilterSet, negation: bool, co: Collation, env: Env)
    ensures var m := Meaning(t, [], co, env);
            Meaning(Lone(t, negation), [], co, env) == if negation then Not3(m) else m
    ensures DropLone(Lone(t, negation)) == Lone(DropLone(t), false)
    ensures WellFormed(t) ==> WellFormed(Lone(t, negation))
    ensures ForFilters(t, Undotted) ==> ForFilters(Lone(t, negation), Undotted)
  {
    assert [t][1..] == [] && AllWellFormed([]) && ForAllFilters([], Undotted);
    assert DropLoneAll([t]) == [DropLone(t)] + DropLoneAll([]) == [DropLone(t)];
    assert Meanings([t], [], co, env) == [Meaning(t, [], co, env)] + Meanings([], [], co, env);
  }

  /** Why every part counts: two negations without an operator are both lost, and cancel each other. */
  lemma TwoNegationsCancel(f: Filter)
    requires GoodFilter(f) && Undotted(f)
    ensures var s := Lone(Alone(f).(negation := true), true);
            !NoLoneNegation(s) && SelectsAsAsked(s)
  {
    var not := Alone(f).(negation := true);
    var s := Lone(not, true);
    forall db: Database, n: Node, x: Row | n.filter == Some(s)
      ensures Selected(db.collation, n.filter, x) <==> Asks(db, n, x)
    {
      LoneMeans(not, true, db.collation, RowEnv(x));
      LoneMeans(Alone(f), false, db.collation, RowEnv(x));
      assert DropLone(not) == Alone(f);
      UndottedAsks(db, n, x);
    }
  }
}
