/**
 The multi-query mode: one level of the selection at a time, the children of all parents of a field in one batch,
 results assigned to their parents, and down again. Compared with nested loops, then with the single-query mode.
 */
module Multi {
  import opened Truth
  import opened Filters
  import opened Seqs
  import opened Sql
  import opened Ordering
  import opened Query
  import opened Batch
  import opened Rebuild

  /** A result object: its row, and what was put under its relationship fields. */
  datatype Child = ManyOf(list: seq<ResultObject>) | OneOf(object_: Option<ResultObject>)
  datatype ResultObject = ResultObject(row: Row, kids: map<string, Child>)

  /** The database as the loader sees it: an answer to a bound statement, or an error. */
  type Engine = (BatchText, seq<Operand>) -> Option<seq<Row>>

  ghost predicate Replies(db: Database, t: BatchText, args: seq<Operand>, r: Option<seq<Row>>)
    requires Batch.Bindable(t, args)
  {
    (r.Some? <==> LegalBatch(db, t)) && (r.Some? ==> Answers(db, t, args, r.value))
  }

  /** The statements a database takes are answered as SQL says. */
  ghost predicate Faithful(db: Database, engine: Engine) {
    forall t: BatchText, args: seq<Operand> | Batch.Bindable(t, args) :: Replies(db, t, args, engine(t, args))
  }

  // ---------------------------------------------------------------- objects as trees

  function ChildList(c: Child): seq<ResultObject> {
    match c
    case ManyOf(list) => list
    case OneOf(None) => []
    case OneOf(Some(o)) => [o]
  }

  function KidList(o: ResultObject, field: string): seq<ResultObject> {
    if field in o.kids then ChildList(o.kids[field]) else []
  }

  function TreeOf(n: Node, o: ResultObject): Tree
    decreases n
  {
    Tree(ScalarsOf(n, o.row), KidsOf(n.edges, o))
  }

  function KidsOf(edges: seq<Edge>, o: ResultObject): set<(string, Tree)>
    decreases edges
  {
    set e, c | e in edges && c in KidList(o, e.field) :: (e.field, TreeOf(e.node, c))
  }

  /** The children under every relationship, at every depth, are in the order of their primary keys. */
  ghost predicate ObjectInOrder(co: Collation, n: Node, o: ResultObject)
    decreases n
  {
    forall e :: e in n.edges ==> ListInOrder(co, e, KidList(o, e.field))
  }

  ghost predicate ListInOrder(co: Collation, e: Edge, kids: seq<ResultObject>)
    decreases e
  {
    (forall a, b :: 0 <= a < b < |kids| ==> !Less(co, Col(kids[b].row, e.node.key), Col(kids[a].row, e.node.key))) &&
    forall c :: c in kids ==> ObjectInOrder(co, e.node, c)
  }

  function BuiltKids(db: Database, edges: seq<Edge>, row: Row): set<(string, Tree)> {
    set e, y | e in edges && y in RowsOf(db, e.node.table) && JoinsTo(db, e, row, y) :: (e.field, Build(db, e.node, y))
  }

  // ---------------------------------------------------------------- the queries of one field

  /** What a field needs of the types at its ends: key and join columns are projected, bridge names differ. */
  predicate Projected(n: Node) {
    n.key in n.columns &&
    forall e :: e in n.edges ==>
      e.parentColumn in n.columns && Projected(e.node) && WellFormedSet(e.node.filter) &&
      (e.bridge.Some? ==> e.bridge.value.parentKey !in e.node.columns && e.bridge.value.parentKey != e.childColumn)
  }

  /** The key of a selected type is projected, and is of type ID. */
  function QueryFor(e: Edge, id: Value): BatchQuery {
    BatchQuery(e.node.table, e.node.columns + [e.childColumn], true, e.node.filter, Some(e.node.key), false,
               Some(JoinSpec(id, e.childColumn, e.bridge)), None, None)
  }

  /** One query per parent that has a key to join on. */
  function Queries(e: Edge, rows: seq<Row>): seq<BatchQuery> {
    if rows == [] then []
    else (if Col(rows[0], e.parentColumn).Null? then [] else [QueryFor(e, Col(rows[0], e.parentColumn))]) +
         Queries(e, rows[1..])
  }

  /** The position of a parent's query among the queries. */
  function Position(e: Edge, rows: seq<Row>, i: nat): (p: nat)
    requires i <= |rows|
  {
    |Queries(e, rows[..i])|
  }

  lemma {:induction false} QueriesAppend(e: Edge, a: seq<Row>, b: seq<Row>)
    ensures Queries(e, a + b) == Queries(e, a) + Queries(e, b)
  {
    if a != [] {
      assert (a + b)[1..] == a[1..] + b;
      QueriesAppend(e, a[1..], b);
    } else {
      assert a + b == b;
    }
  }

  lemma QueryAt(e: Edge, rows: seq<Row>, i: nat)
    requires i < |rows|
    ensures Queries(e, rows[..i + 1]) ==
              Queries(e, rows[..i]) +
              if Col(rows[i], e.parentColumn).Null? then [] else [QueryFor(e, Col(rows[i], e.parentColumn))]
    ensures Col(rows[i], e.parentColumn).Val? ==>
              Position(e, rows, i) < |Queries(e, rows)| &&
              Queries(e, rows)[Position(e, rows, i)] == QueryFor(e, Col(rows[i], e.parentColumn))
  {
    assert rows[..i + 1] == rows[..i] + [rows[i]];
    QueriesAppend(e, rows[..i], [rows[i]]);
    assert [rows[i]][1..] == [];
    assert rows == rows[..i + 1] + rows[i + 1..];
    QueriesAppend(e, rows[..i + 1], rows[i + 1..]);
  }

  lemma {:induction false} QueriesAreFusible(e: Edge, rows: seq<Row>)
    requires WellFormedSet(e.node.filter)
    ensures forall q :: q in Queries(e, rows) ==>
              q.join.Some? && q.join.value.parentId.Val? && q == QueryFor(e, q.join.value.parentId)
    ensures Queries(e, rows) != [] ==> Fusible(Queries(e, rows))
  {
    if rows != [] {
      QueriesAreFusible(e, rows[1..]);
    }
    var qs := Queries(e, rows);
    if qs != [] {
      assert qs[0] in qs;
      forall q | q in qs
        ensures q == qs[0].(join := Some(qs[0].join.value.(parentId := q.join.value.parentId)))
      {
      }
    }
  }

  /** The fused statement of a field is one a database with the columns takes. */
  lemma QueriesAreLegal(db: Database, n: Node, e: Edge, rows: seq<Row>)
    requires Projected(n) && NamesKnown(db, n) && e in n.edges && Queries(e, rows) != []
    ensures Fusible(Queries(e, rows)) && TextOf(Queries(e, rows)).ParsedBatch?
    ensures LegalBatch(db, TextOf(Queries(e, rows)).text)
  {
    var qs := Queries(e, rows);
    QueriesAreFusible(e, rows);
    TextFits(qs);
    assert qs[0] in qs && qs[0] == QueryFor(e, qs[0].join.value.parentId);
    assert e.node.key in e.node.columns && ColumnsKnown(db, e.node);
    assert forall f :: f in e.node.columns + [e.childColumn] <==> f in e.node.columns || f == e.childColumn;
    if e.node.filter.Some? {
      NamesOwnColumns(db, e.node.filter.value, [e.node.table], e.node.table);
    }
  }

  // ---------------------------------------------------------------- the children of one parent

  /** The result row stands for the child: same selected columns. */
  predicate StandsFor(n: Node, r: Row, y: Row) {
    forall f :: f in n.columns ==> Col(r, f) == Col(y, f)
  }

  /** Objects are determined by the selected columns of their row. */
  lemma StandInBuildsSame(db: Database, n: Node, r: Row, y: Row)
    requires StandsFor(n, r, y) && Projected(n)
    ensures Build(db, n, r) == Build(db, n, y)
    ensures AtMostOne(db, n, r) <==> AtMostOne(db, n, y)
  {
    assert ScalarsOf(n, r) == ScalarsOf(n, y);
    forall e, z | e in n.edges
      ensures JoinsTo(db, e, r, z) <==> JoinsTo(db, e, y, z)
    {
      assert Col(r, e.parentColumn) == Col(y, e.parentColumn);
    }
    assert BuiltKids(db, n.edges, r) == BuiltKids(db, n.edges, y);
  }

  /** The result row of a joined child. */
  function ResultRowOf(e: Edge, id: Value, y: Row): Row {
    var r := Restrict(y, e.node.columns + [e.childColumn]);
    if e.bridge.Some? then r[e.bridge.value.parentKey := id] else r
  }

  lemma ResultRowStandsFor(n: Node, e: Edge, id: Value, y: Row)
    requires Projected(n) && e in n.edges
    ensures StandsFor(e.node, ResultRowOf(e, id, y), y)
  {
  }

  /** What a query alone selects: the result rows of exactly the children nested loops would find. */
  lemma AloneSelectsChildren(db: Database, n: Node, e: Edge, parent: Row, r: Row)
    requires Projected(n) && e in n.edges && Col(parent, e.parentColumn).Val?
    ensures var q := QueryFor(e, Col(parent, e.parentColumn));
            Fusible([q]) && TextOf([q]).ParsedBatch? && Batch.Bindable(TextOf([q]).text, Args([q])) &&
            (Produces(db, TextOf([q]).text, Args([q]), r) <==>
             exists y :: JoinsTo(db, e, parent, y) && r == ResultRowOf(e, Col(parent, e.parentColumn), y))
  {
    var id := Col(parent, e.parentColumn);
    var q := QueryFor(e, id);
    TextFits([q]);
    var t, args := TextOf([q]).text, Args([q]);
    assert ParentIds([q]) == [id] by {
      assert [q][1..] == [];
    }
    forall v: Value
      ensures InListHolds(t.inList, v) <==> v == id
    {
      AnyEqualYes(v, [id]);
    }
    forall y
      ensures Chosen(db, t, args, y) <==> y in RowsOf(db, e.node.table) && Selected(db.collation, e.node.filter, y)
    {
      ChosenIff(db, q, y);
    }
    forall y
      ensures JoinsTo(db, e, parent, y) && r == ResultRowOf(e, id, y) <==> Chosen(db, t, args, y) && Yields(db, t, y, r)
    {
      if e.bridge.Some? {
        forall b
          ensures ProducesBridged(db, t, y, b, r) <==>
                    b in RowsOf(db, e.bridge.value.table) && Equal3(Col(b, e.bridge.value.parentKey), id) == Yes &&
                    Equal3(Col(b, e.bridge.value.childKey), Col(y, e.childColumn)) == Yes && r == ResultRowOf(e, id, y)
        {
        }
      }
    }
  }

  /** A list of exactly the result rows of the children nested loops find, by ascending key. */
  ghost predicate ListsChildren(db: Database, e: Edge, parent: Row, list: seq<Row>) {
    Distinct(list) && SortedOn(db.collation, e.node.key, false, list) &&
    (forall r :: r in list ==>
       exists y :: JoinsTo(db, e, parent, y) && r == ResultRowOf(e, Col(parent, e.parentColumn), y)) &&
    (forall y :: JoinsTo(db, e, parent, y) ==> ResultRowOf(e, Col(parent, e.parentColumn), y) in list)
  }

  lemma AnswerListsChildren(db: Database, n: Node, e: Edge, parent: Row, list: seq<Row>)
    requires Projected(n) && e in n.edges && Col(parent, e.parentColumn).Val?
    requires var q := QueryFor(e, Col(parent, e.parentColumn));
             TextOf([q]).ParsedBatch? && Batch.Bindable(TextOf([q]).text, Args([q])) &&
             Answers(db, TextOf([q]).text, Args([q]), list)
    ensures ListsChildren(db, e, parent, list)
  {
    var q := QueryFor(e, Col(parent, e.parentColumn));
    var t, args := TextOf([q]).text, Args([q]);
    assert t.skip == None && t.limit == None by {
      TextFits([q]);
    }
    var all :| AnswersAll(db, t, args, all) && list == Slice(all, None, None);
    assert list == all;
    forall r: Row
      ensures r in list <==>
                exists y :: JoinsTo(db, e, parent, y) && r == ResultRowOf(e, Col(parent, e.parentColumn), y)
    {
      AloneSelectsChildren(db, n, e, parent, r);
    }
  }

  /** Different children have different result rows. */
  lemma CountsChildren(db: Database, n: Node, e: Edge, parent: Row, list: seq<Row>)
    requires Projected(n) && Keyed(db, n) && e in n.edges && ListsChildren(db, e, parent, list)
    ensures |list| <= 1 <==> forall y, z :: JoinsTo(db, e, parent, y) && JoinsTo(db, e, parent, z) ==> y == z
  {
    var id := Col(parent, e.parentColumn);
    forall y, z | |list| <= 1 && JoinsTo(db, e, parent, y) && JoinsTo(db, e, parent, z)
      ensures y == z
    {
      ResultRowStandsFor(n, e, id, y);
      ResultRowStandsFor(n, e, id, z);
      var i, k :| 0 <= i < |list| && 0 <= k < |list| &&
                  list[i] == ResultRowOf(e, id, y) && list[k] == ResultRowOf(e, id, z);
      assert Col(y, e.node.key) == Col(list[0], e.node.key) == Col(z, e.node.key);
    }
    if |list| > 1 {
      assert list[0] in list && list[1] in list;
      var y :| JoinsTo(db, e, parent, y) && list[0] == ResultRowOf(e, id, y);
      var z :| JoinsTo(db, e, parent, z) && list[1] == ResultRowOf(e, id, z);
      assert y != z;
    }
  }

  // ---------------------------------------------------------------- the traversal

  /** The trees a parent shows under a field. */
  function TreesUnder(e: Edge, list: seq<ResultObject>): set<Tree> {
    set c | c in list :: TreeOf(e.node, c)
  }

  function BuiltUnder(db: Database, e: Edge, row: Row): set<Tree> {
    set y | y in RowsOf(db, e.node.table) && JoinsTo(db, e, row, y) :: Build(db, e.node, y)
  }

  lemma ListedTrees(db: Database, n: Node, e: Edge, parent: Row, list: seq<Row>, kids: seq<ResultObject>)
    requires Projected(n) && e in n.edges && ListsChildren(db, e, parent, list)
    requires |kids| == |list| && forall i :: 0 <= i < |list| ==> TreeOf(e.node, kids[i]) == Build(db, e.node, list[i])
    ensures TreesUnder(e, kids) == BuiltUnder(db, e, parent)
  {
    var id := Col(parent, e.parentColumn);
    forall t | t in TreesUnder(e, kids)
      ensures t in BuiltUnder(db, e, parent)
    {
      var i :| 0 <= i < |kids| && t == TreeOf(e.node, kids[i]);
      assert list[i] in list;
      var y :| JoinsTo(db, e, parent, y) && list[i] == ResultRowOf(e, id, y);
      ResultRowStandsFor(n, e, id, y);
      StandInBuildsSame(db, e.node, list[i], y);
    }
    forall t | t in BuiltUnder(db, e, parent)
      ensures t in TreesUnder(e, kids)
    {
      var y :| JoinsTo(db, e, parent, y) && t == Build(db, e.node, y);
      var i :| 0 <= i < |list| && list[i] == ResultRowOf(e, id, y);
      ResultRowStandsFor(n, e, id, y);
      StandInBuildsSame(db, e.node, list[i], y);
      assert kids[i] in kids;
    }
  }

  lemma ListedAtMostOne(db: Database, n: Node, e: Edge, parent: Row, list: seq<Row>)
    requires Projected(n) && e in n.edges && ListsChildren(db, e, parent, list)
    ensures (forall i :: 0 <= i < |list| ==> AtMostOne(db, e.node, list[i])) <==>
            (forall y :: JoinsTo(db, e, parent, y) ==> AtMostOne(db, e.node, y))
  {
    var id := Col(parent, e.parentColumn);
    forall y | JoinsTo(db, e, parent, y)
      ensures AtMostOne(db, e.node, ResultRowOf(e, id, y)) <==> AtMostOne(db, e.node, y)
    {
      ResultRowStandsFor(n, e, id, y);
      StandInBuildsSame(db, e.node, ResultRowOf(e, id, y), y);
    }
    forall i | 0 <= i < |list|
      ensures exists y :: JoinsTo(db, e, parent, y) && list[i] == ResultRowOf(e, id, y)
    {
      assert list[i] in list;
    }
  }

  lemma ListedInOrder(db: Database, e: Edge, list: seq<Row>, kids: seq<ResultObject>)
    requires SortedOn(db.collation, e.node.key, false, list) && |kids| == |list|
    requires forall i :: 0 <= i < |kids| ==> kids[i].row == list[i] && ObjectInOrder(db.collation, e.node, kids[i])
    ensures ListInOrder(db.collation, e, kids)
  {
    forall a, b | 0 <= a < b < |kids|
      ensures !Less(db.collation, Col(kids[b].row, e.node.key), Col(kids[a].row, e.node.key))
    {
      assert !Precedes(db.collation, e.node.key, false, list[b], list[a]);
    }
  }

  /** A child list is put under its parent's field, a single object for a to-one field; two of them are an error. */
  method LoadAndAssign(ghost db: Database, engine: Engine, ghost n: Node, e: Edge, ghost parent: Row, list: seq<Row>)
    returns (ok: bool, child: Child)
    requires Faithful(db, engine) && Projected(n) && NamesKnown(db, n) && Keyed(db, n) && e in n.edges
    requires DistinctFields(e.node.edges)
    requires WellFormedEdges(e.node.edges) && ListsChildren(db, e, parent, list)
    ensures ok <==> EdgeAtMostOne(db, e, parent)
    ensures ok ==> TreesUnder(e, ChildList(child)) == BuiltUnder(db, e, parent)
    ensures ok ==> ListInOrder(db.collation, e, ChildList(child))
    decreases e, 0
  {
    CountsChildren(db, n, e, parent, list);
    ListedAtMostOne(db, n, e, parent, list);
    child := OneOf(None);
    if !e.hasMany && |list| > 1 {
      return false, child;
    }
    var kids;
    ok, kids := Resolve(db, engine, e.node, list);
    if ok {
      ListedTrees(db, n, e, parent, list, kids);
      ListedInOrder(db, e, list, kids);
      if e.hasMany {
        child := ManyOf(kids);
      } else if |kids| > 0 {
        child := OneOf(Some(kids[0]));
        assert ChildList(child) == kids;
      }
    }
  }

  method BuildQueries(e: Edge, rows: seq<Row>) returns (qs: seq<BatchQuery>)
    ensures qs == Queries(e, rows)
  {
    qs := [];
    for i := 0 to |rows|
      invariant qs == Queries(e, rows[..i])
    {
      QueryAt(e, rows, i);
      if Col(rows[i], e.parentColumn).Val? {
        qs := qs + [QueryFor(e, Col(rows[i], e.parentColumn))];
      }
    }
    assert rows[..|rows|] == rows;
  }

  /** Every parent with a key has its list, found at the position of its query. */
  ghost predicate Dealt(db: Database, e: Edge, rows: seq<Row>, lists: seq<seq<Row>>) {
    forall i :: 0 <= i < |rows| && Col(rows[i], e.parentColumn).Val? ==>
      Position(e, rows, i) < |lists| && ListsChildren(db, e, rows[i], lists[Position(e, rows, i)])
  }

  /** One dispatch: the queries of all parents as one batch. */
  method LoadBatch(ghost db: Database, engine: Engine, ghost n: Node, e: Edge, rows: seq<Row>)
    returns (lists: seq<seq<Row>>)
    requires Faithful(db, engine) && Projected(n) && NamesKnown(db, n) && e in n.edges
    ensures Dealt(db, e, rows, lists)
  {
    lists := [];
    var qs := BuildQueries(e, rows);
    QueriesAreFusible(e, rows);
    if qs != [] {
      TextFits(qs);
      QueriesAreLegal(db, n, e, rows);
      var reply := engine(TextOf(qs).text, Args(qs));
      assert Replies(db, TextOf(qs).text, Args(qs), reply);
      var combined := reply.value;
      BatchRefinesSingles(db, qs, combined, 0);
      var matched;
      matched, lists := MatchQueriesToResults(qs, combined);
      forall i | 0 <= i < |rows| && Col(rows[i], e.parentColumn).Val?
        ensures Position(e, rows, i) < |lists| && ListsChildren(db, e, rows[i], lists[Position(e, rows, i)])
      {
        QueryAt(e, rows, i);
        BatchRefinesSingles(db, qs, combined, Position(e, rows, i));
        AnswerListsChildren(db, n, e, rows[i], lists[Position(e, rows, i)]);
      }
    } else {
      forall i | 0 <= i < |rows|
        ensures Col(rows[i], e.parentColumn).Null?
      {
        QueryAt(e, rows, i);
      }
    }
  }

  lemma NothingUnderNull(db: Database, e: Edge, row: Row)
    requires Col(row, e.parentColumn).Null?
    ensures EdgeAtMostOne(db, e, row) && BuiltUnder(db, e, row) == {}
  {
    forall y
      ensures !JoinsTo(db, e, row, y)
    {
      NullMeetsNothing(db, e.bridge, e.childColumn, y);
    }
  }

  ghost predicate Assigned(db: Database, e: Edge, row: Row, before: ResultObject, after: ResultObject) {
    after.row == before.row && after.kids - {e.field} == before.kids &&
    TreesUnder(e, KidList(after, e.field)) == BuiltUnder(db, e, row) &&
    ListInOrder(db.collation, e, KidList(after, e.field))
  }

  lemma PutUnder(db: Database, e: Edge, row: Row, before: ResultObject, child: Child)
    requires e.field !in before.kids && TreesUnder(e, ChildList(child)) == BuiltUnder(db, e, row)
    requires ListInOrder(db.collation, e, ChildList(child))
    ensures Assigned(db, e, row, before, ResultObject(before.row, before.kids[e.field := child]))
  {
    var after := ResultObject(before.row, before.kids[e.field := child]);
    assert after.kids - {e.field} == before.kids;
    assert KidList(after, e.field) == ChildList(child);
  }

  /** The first i parents have at most one row under a to-one field, and below. */
  ghost predicate FirstAtMostOne(db: Database, e: Edge, rows: seq<Row>, i: nat)
    requires i <= |rows|
  {
    i == 0 || (FirstAtMostOne(db, e, rows, i - 1) && EdgeAtMostOne(db, e, rows[i - 1]))
  }

  lemma {:induction false} FirstAtMostOneIff(db: Database, e: Edge, rows: seq<Row>, i: nat)
    requires i <= |rows|
    ensures FirstAtMostOne(db, e, rows, i) <==> forall k :: 0 <= k < i ==> EdgeAtMostOne(db, e, rows[k])
  {
    if i > 0 {
      FirstAtMostOneIff(db, e, rows, i - 1);
    }
  }

  /** One parent: nothing under a NULL key, otherwise the next list. */
  method AssignNext(
      ghost db: Database, engine: Engine, ghost n: Node, e: Edge, row: Row, before: ResultObject,
      lists: seq<seq<Row>>, p: nat) returns (ok: bool, after: ResultObject)
    requires Faithful(db, engine) && Projected(n) && NamesKnown(db, n) && Keyed(db, n)
    requires WellFormedEdges(n.edges) && e in n.edges
    requires e.field !in before.kids
    requires Col(row, e.parentColumn).Val? ==> p < |lists| && ListsChildren(db, e, row, lists[p])
    ensures ok <==> EdgeAtMostOne(db, e, row)
    ensures ok ==> Assigned(db, e, row, before, after)
    decreases e, 1
  {
    ok, after := true, before;
    if Col(row, e.parentColumn).Null? {
      NothingUnderNull(db, e, row);
      assert before.kids - {e.field} == before.kids;
    } else {
      var child;
      ok, child := LoadAndAssign(db, engine, n, e, row, lists[p]);
      if ok {
        PutUnder(db, e, row, before, child);
        after := ResultObject(before.row, before.kids[e.field := child]);
      }
    }
  }

  /** The list of the next parent with a key is at the position its query has. */
  lemma NextIsDealt(db: Database, e: Edge, rows: seq<Row>, lists: seq<seq<Row>>, i: nat)
    requires Dealt(db, e, rows, lists) && i < |rows|
    ensures Col(rows[i], e.parentColumn).Val? ==>
              Position(e, rows, i) < |lists| && ListsChildren(db, e, rows[i], lists[Position(e, rows, i)])
    ensures Position(e, rows, i + 1) == Position(e, rows, i) + if Col(rows[i], e.parentColumn).Null? then 0 else 1
  {
    QueryAt(e, rows, i);
  }

  /** The children of all parents of one field: one batch, split up, each list assigned to its parent. */
  method TraverseJoin(
      ghost db: Database, engine: Engine, ghost n: Node, e: Edge, rows: seq<Row>, before: seq<ResultObject>)
    returns (ok: bool, objects: seq<ResultObject>)
    requires Faithful(db, engine) && Projected(n) && NamesKnown(db, n) && Keyed(db, n)
    requires WellFormedEdges(n.edges) && e in n.edges
    requires |before| == |rows| && forall i :: 0 <= i < |rows| ==> e.field !in before[i].kids
    ensures ok <==> forall i :: 0 <= i < |rows| ==> EdgeAtMostOne(db, e, rows[i])
    ensures ok ==> |objects| == |rows|
    ensures ok ==> forall i :: 0 <= i < |rows| ==> Assigned(db, e, rows[i], before[i], objects[i])
    decreases e, 2
  {
    objects := [];
    var lists := LoadBatch(db, engine, n, e, rows);
    ok := true;
    var p := 0;
    for i := 0 to |rows|
      invariant ok && |objects| == i && p == Position(e, rows, i) && FirstAtMostOne(db, e, rows, i)
      invariant forall k :: 0 <= k < i ==> Assigned(db, e, rows[k], before[k], objects[k])
    {
      NextIsDealt(db, e, rows, lists, i);
      var after;
      ok, after := AssignNext(db, engine, n, e, rows[i], before[i], lists, p);
      if !ok {
        return;
      }
      objects := objects + [after];
      p := if Col(rows[i], e.parentColumn).Null? then p else p + 1;
    }
    FirstAtMostOneIff(db, e, rows, |rows|);
  }

  lemma KidsSnoc(edges: seq<Edge>, e: Edge, o: ResultObject, o': ResultObject)
    requires o'.kids - {e.field} == o.kids && forall d :: d in edges ==> d.field != e.field
    ensures KidsOf(edges + [e], o') ==
              KidsOf(edges, o) + set c | c in KidList(o', e.field) :: (e.field, TreeOf(e.node, c))
  {
    forall d | d in edges
      ensures KidList(o', d.field) == KidList(o, d.field)
    {
      OthersKept(e, d, o, o');
    }
    assert forall d :: d in edges + [e] <==> d in edges || d == e;
  }

  lemma BuiltSnoc(db: Database, edges: seq<Edge>, e: Edge, row: Row)
    ensures BuiltKids(db, edges + [e], row) ==
              BuiltKids(db, edges, row) + set t | t in BuiltUnder(db, e, row) :: (e.field, t)
  {
    assert forall d :: d in edges + [e] <==> d in edges || d == e;
  }

  lemma FieldTrees(e: Edge, o: ResultObject)
    ensures (set c | c in KidList(o, e.field) :: (e.field, TreeOf(e.node, c))) ==
            set t | t in TreesUnder(e, KidList(o, e.field)) :: (e.field, t)
  {
  }

  /** The first m fields of the object are resolved, and no later one is there. */
  ghost predicate ResolvedTo(db: Database, n: Node, m: nat, row: Row, o: ResultObject)
    requires m <= |n.edges|
  {
    o.row == row && KidsOf(n.edges[..m], o) == BuiltKids(db, n.edges[..m], row) &&
    (forall k :: 0 <= k < m ==> ListInOrder(db.collation, n.edges[k], KidList(o, n.edges[k].field))) &&
    forall k :: m <= k < |n.edges| ==> n.edges[k].field !in o.kids
  }

  lemma OthersKept(e: Edge, d: Edge, before: ResultObject, after: ResultObject)
    requires after.kids - {e.field} == before.kids && d.field != e.field
    ensures KidList(after, d.field) == KidList(before, d.field)
  {
    assert d.field in before.kids <==> d.field in after.kids;
    if d.field in before.kids {
      assert (after.kids - {e.field})[d.field] == after.kids[d.field];
    }
  }

  lemma NextResolved(db: Database, n: Node, m: nat, row: Row, before: ResultObject, after: ResultObject)
    requires m < |n.edges| && DistinctFields(n.edges) && ResolvedTo(db, n, m, row, before)
    requires Assigned(db, n.edges[m], row, before, after)
    ensures ResolvedTo(db, n, m + 1, row, after)
  {
    var e, done := n.edges[m], n.edges[..m];
    assert n.edges[..m + 1] == done + [e];
    KidsSnoc(done, e, before, after);
    FieldTrees(e, after);
    BuiltSnoc(db, done, e, row);
    forall k | 0 <= k < m
      ensures KidList(after, n.edges[k].field) == KidList(before, n.edges[k].field)
    {
      OthersKept(e, n.edges[k], before, after);
    }
    forall k | m < k < |n.edges|
      ensures n.edges[k].field !in after.kids
    {
      assert n.edges[k].field in after.kids - {e.field} <==> n.edges[k].field in after.kids;
    }
  }

  lemma FreshResolved(db: Database, n: Node, row: Row)
    ensures ResolvedTo(db, n, 0, row, ResultObject(row, map[]))
  {
  }

  lemma AllResolved(db: Database, n: Node, row: Row, o: ResultObject)
    requires ResolvedTo(db, n, |n.edges|, row, o)
    requires forall k :: 0 <= k < |n.edges| ==> EdgeAtMostOne(db, n.edges[k], row)
    ensures AtMostOne(db, n, row) && o.row == row && TreeOf(n, o) == Build(db, n, row)
    ensures ObjectInOrder(db.collation, n, o)
  {
    assert n.edges[..|n.edges|] == n.edges;
    assert forall e :: e in n.edges ==> EdgeAtMostOne(db, e, row);
  }

  lemma NotAtMostOne(db: Database, n: Node, e: Edge, rows: seq<Row>)
    requires e in n.edges && !forall i :: 0 <= i < |rows| ==> EdgeAtMostOne(db, e, rows[i])
    ensures !forall i :: 0 <= i < |rows| ==> AtMostOne(db, n, rows[i])
  {
    var i :| 0 <= i < |rows| && !EdgeAtMostOne(db, e, rows[i]);
    assert !AtMostOne(db, n, rows[i]);
  }

  /**
   The whole traversal of a list of results: it succeeds iff no to-one field below has two rows, and then every
   object is the one nested loops build.
   */
  method Resolve(ghost db: Database, engine: Engine, n: Node, rows: seq<Row>)
    returns (ok: bool, objects: seq<ResultObject>)
    requires Faithful(db, engine) && Projected(n) && NamesKnown(db, n) && Keyed(db, n) && WellFormedEdges(n.edges)
    ensures ok <==> forall i :: 0 <= i < |rows| ==> AtMostOne(db, n, rows[i])
    ensures ok ==> |objects| == |rows|
    ensures ok ==> forall i :: 0 <= i < |rows| ==>
              objects[i].row == rows[i] && TreeOf(n, objects[i]) == Build(db, n, rows[i])
    ensures ok ==> forall i :: 0 <= i < |rows| ==> ObjectInOrder(db.collation, n, objects[i])
    decreases n
  {
    objects := Map(rows, (r: Row) => ResultObject(r, map[]));
    ok := true;
    forall i | 0 <= i < |rows|
      ensures ResolvedTo(db, n, 0, rows[i], objects[i])
    {
      FreshResolved(db, n, rows[i]);
    }
    for m := 0 to |n.edges|
      invariant ok && |objects| == |rows|
      invariant forall i :: 0 <= i < |rows| ==> ResolvedTo(db, n, m, rows[i], objects[i])
      invariant forall i, k :: 0 <= i < |rows| && 0 <= k < m ==> EdgeAtMostOne(db, n.edges[k], rows[i])
    {
      var e := n.edges[m];
      assert e in n.edges;
      var next;
      ok, next := TraverseJoin(db, engine, n, e, rows, objects);
      if !ok {
        NotAtMostOne(db, n, e, rows);
        return;
      }
      forall i | 0 <= i < |rows|
        ensures ResolvedTo(db, n, m + 1, rows[i], next[i])
      {
        NextResolved(db, n, m, rows[i], objects[i], next[i]);
      }
      objects := next;
    }
    forall i | 0 <= i < |rows|
      ensures AtMostOne(db, n, rows[i]) && objects[i].row == rows[i] && TreeOf(n, objects[i]) == Build(db, n, rows[i])
      ensures ObjectInOrder(db.collation, n, objects[i])
    {
      AllResolved(db, n, rows[i], objects[i]);
    }
  }
}
