/**
 The round trip: flattening nested objects by left outer joins and folding the loader over the rows gives the
 nested objects back.
 */
module Rebuild {
  import opened Truth
  import opened Names
  import opened Filters
  import opened Sql
  import opened Query
  import opened Loader
  import opened LoaderFold
  import opened LoaderLaws

  // ---------------------------------------------------------------- reading objects off the cache

  function Linked(o: Object, field: string): set<string> {
    if field !in o then {}
    else match o[field]
      case Scalar(_) => {}
      case Many(keys) => Elements(keys)
      case One(key) => {key}
  }

  /** The object of a key with everything it refers to, as a tree. */
  function Reify(cache: map<string, Object>, r: RowObject, k: string): Tree
    decreases r
  {
    var o := if k in cache then cache[k] else map[];
    Tree(map f | f in o && o[f].Scalar? :: o[f].v,
         set c, m | c in r.children && m in Linked(o, c.parentField) :: (c.parentField, Reify(cache, c, m)))
  }

  // ---------------------------------------------------------------- the loader's view of a selection

  predicate Shown(labels: map<string, Column>, c: LabelledColumn, p: Path) {
    c.columnLabel in labels && labels[c.columnLabel] == Column(p, c.name)
  }

  /** The type tree the loader works with has the selection's types, keys, columns and fields. */
  predicate Mirrors(r: RowObject, n: Node, p: Path, labels: map<string, Column>, many: set<string>)
    decreases r
  {
    r.path == Dotted(p) && r.key.name == n.key && n.key in n.columns &&
    NamesOf(r.values) == (set f | f in n.columns && f != n.key) &&
    Shown(labels, r.key, p) && (forall c :: c in r.values ==> Shown(labels, c, p)) &&
    FieldsOf(r.children) == EdgeFields(n.edges) &&
    (forall c, e :: c in r.children && e in n.edges && c.parentField == e.field ==>
       (c.path in many <==> e.hasMany) && Mirrors(c, e.node, p + [e.field], labels, many))
  }

  function EdgeFields(edges: seq<Edge>): set<string> {
    set e | e in edges :: e.field
  }

  // ---------------------------------------------------------------- what is asked of the data

  /** Primary keys are not NULL and unique, in every table of the selection. */
  predicate Keyed(db: Database, n: Node) {
    (forall x :: x in RowsOf(db, n.table) ==> Col(x, n.key).Val?) &&
    (forall x, y | x in RowsOf(db, n.table) && y in RowsOf(db, n.table) && Col(x, n.key) == Col(y, n.key) :: x == y) &&
    (forall e :: e in n.edges ==> Keyed(db, e.node))
  }

  /** No to-one field of the object or below it has two rows. */
  ghost predicate AtMostOne(db: Database, n: Node, x: Row)
    decreases n
  {
    forall e :: e in n.edges ==> EdgeAtMostOne(db, e, x)
  }

  ghost predicate EdgeAtMostOne(db: Database, e: Edge, x: Row)
    decreases e
  {
    (!e.hasMany ==> forall y, z :: JoinsTo(db, e, x, y) && JoinsTo(db, e, x, z) ==> y == z) &&
    (forall y :: JoinsTo(db, e, x, y) ==> AtMostOne(db, e.node, y))
  }

  function NodeKey(n: Node, p: Path, x: Row): string {
    match Col(x, n.key)
    case Null => ""
    case Val(text) => CacheKey(Dotted(p), n.key, text)
  }

  /** The cache keys of two rows have one hash code. */
  predicate Collide(n: Node, p: Path, y: Row, z: Row) {
    JavaHash(NodeKey(n, p, y)) == JavaHash(NodeKey(n, p, z))
  }

  /** No two children of one has-many field, of the object or below it, have cache keys of one hash code. */
  ghost predicate SiblingsApart(db: Database, n: Node, p: Path, x: Row)
    decreases n
  {
    forall e :: e in n.edges ==> EdgeApart(db, e, p, x)
  }

  ghost predicate EdgeApart(db: Database, e: Edge, p: Path, x: Row)
    decreases e
  {
    (e.hasMany ==>
       forall y, z | JoinsTo(db, e, x, y) && JoinsTo(db, e, x, z) && Collide(e.node, p + [e.field], y, z) :: y == z) &&
    (forall y :: JoinsTo(db, e, x, y) ==> SiblingsApart(db, e.node, p + [e.field], y))
  }

  // ---------------------------------------------------------------- an answered query

  /**
   The bound joins over some root rows, a WHERE clause on the joined rows, and result rows that show exactly the joined
   rows that are kept, in any order.
   */
  datatype Answer = Answer(
    db: Database, base: seq<JoinedRow>, plan: seq<BoundJoin>, where_: Option<Condition>, args: seq<Operand>,
    rootPath: Path, labels: map<string, Column>, many: set<string>, root: RowObject, rows: seq<ResultRow>)

  ghost predicate IsJoined(a: Answer, j: JoinedRow) {
    AllFit(a.plan) && j in JoinAll(a.db, a.base, a.plan)
  }

  ghost predicate IsKept(a: Answer, j: JoinedRow) {
    IsJoined(a, j) && |a.args| == FilterHoles(a.where_) && FilterHolds(a.db, a.where_, a.args, EnvOf(j))
  }

  ghost predicate Answered(a: Answer) {
    AllFit(a.plan) && Ordered(a.plan, {a.rootPath}) && Over(a.base, {a.rootPath}) &&
    (forall row :: row in a.rows ==> exists j :: IsKept(a, j) && row == Project(a.labels, j)) &&
    (forall j :: IsKept(a, j) ==> Project(a.labels, j) in a.rows) &&
    Clean(a.root) && AllApart(a.root)
  }

  function Cache(a: Answer): map<string, Object> {
    ParseRows(a.root, a.rows, a.many).cache
  }

  /** One type of the selection inside an answered query. */
  ghost predicate At(a: Answer, r: RowObject, n: Node, p: Path) {
    Clean(r) && AllApart(r) && Mirrors(r, n, p, a.labels, a.many) && Keyed(a.db, n) && WellFormedEdges(n.edges) &&
    PlanEdges(n.edges, p).Plan? && (forall b :: b in PlanEdges(n.edges, p).joins ==> b in a.plan) &&
    (forall j: JoinedRow :: IsKept(a, j) ==> p in j && (j[p].Some? ==> j[p].value in RowsOf(a.db, n.table))) &&
    (forall row :: row in a.rows && KeyOf(r, row).Some? ==>
       KeyOf(r, row).value in Visited(a.root, row) && Visited(a.root, row)[KeyOf(r, row).value] == r)
  }

  lemma KeyAt(a: Answer, r: RowObject, n: Node, p: Path, j: JoinedRow)
    requires Answered(a) && At(a, r, n, p) && IsKept(a, j)
    ensures p in j
    ensures KeyOf(r, Project(a.labels, j)) == if j[p].Some? then Some(NodeKey(n, p, j[p].value)) else None
  {
    assert Get(Project(a.labels, j), r.key.columnLabel) == ColumnOf(j, Column(p, n.key));
  }

  /** A join of the plan, seen through the selection: sound and complete. */
  lemma JoinsSound(a: Answer, r: RowObject, n: Node, p: Path, e: Edge, j: JoinedRow)
    requires Answered(a) && At(a, r, n, p) && e in n.edges && IsKept(a, j)
    ensures p in j && p + [e.field] in j
    ensures j[p + [e.field]].Some? ==> j[p].Some? && JoinsTo(a.db, e, j[p].value, j[p + [e.field]].value)
  {
    PlanHolds(n.edges, p, e);
    var b := OwnJoin(e, p);
    var k :| 0 <= k < |a.plan| && a.plan[k] == b;
    OwnJoinIsTheRelation(a.db, e, p, map[], map[]);
    JoinAllSound(a.db, a.base, a.plan, {a.rootPath}, j, k);
    if j[p + [e.field]].Some? {
      OwnJoinIsTheRelation(a.db, e, p, j[p].value, j[p + [e.field]].value);
    }
  }

  /** No joined row is dropped by the WHERE clause. */
  ghost predicate Whole(a: Answer) {
    forall j :: IsJoined(a, j) ==> IsKept(a, j)
  }

  lemma JoinsComplete(a: Answer, r: RowObject, n: Node, p: Path, e: Edge, j: JoinedRow, y: Row) returns (i: JoinedRow)
    requires Answered(a) && At(a, r, n, p) && e in n.edges && IsKept(a, j) && Whole(a)
    requires p in j && j[p].Some? && JoinsTo(a.db, e, j[p].value, y)
    ensures IsKept(a, i) && p in i && i[p] == j[p] && p + [e.field] in i && i[p + [e.field]] == Some(y)
  {
    PlanHolds(n.edges, p, e);
    var b := OwnJoin(e, p);
    var k :| 0 <= k < |a.plan| && a.plan[k] == b;
    OwnJoinIsTheRelation(a.db, e, p, j[p].value, y);
    i := JoinAllComplete(a.db, a.base, a.plan, {a.rootPath}, j, k, y);
    assert IsJoined(a, i);
  }

  /** A child with a key is visited: its parent's row is there, so its parent is visited. */
  lemma ChildIsVisited(
      a: Answer, r: RowObject, n: Node, p: Path, c: RowObject, e: Edge, row: ResultRow)
    requires Answered(a) && At(a, r, n, p) && c in r.children && e in n.edges
    requires c.key.name == e.node.key && Shown(a.labels, c.key, p + [e.field])
    requires row in a.rows && KeyOf(c, row).Some?
    ensures KeyOf(c, row).value in Visited(a.root, row) && Visited(a.root, row)[KeyOf(c, row).value] == c
  {
    var q := p + [e.field];
    var j: JoinedRow :| IsKept(a, j) && row == Project(a.labels, j);
    JoinsSound(a, r, n, p, e, j);
    KeyAt(a, r, n, p, j);
    assert Get(row, c.key.columnLabel) == ColumnOf(j, Column(q, e.node.key));
    assert j[q].Some? && j[p].Some?;
    CleanChild(r.children, row, c);
    OwnKeyApart(r, row);
    VisitedBelow(a.root, row, KeyOf(r, row).value, KeyOf(c, row).value);
  }

  /** What holds of a type inside an answered query holds of the types below it. */
  lemma Descends(a: Answer, r: RowObject, n: Node, p: Path, c: RowObject, e: Edge)
    requires Answered(a) && At(a, r, n, p) && c in r.children && e in n.edges && c.parentField == e.field
    ensures At(a, c, e.node, p + [e.field]) && (c.path in a.many <==> e.hasMany)
  {
    var q := p + [e.field];
    assert Mirrors(c, e.node, q, a.labels, a.many);
    CleanChild(r.children, map[], c);
    PlanHolds(n.edges, p, e);
    forall j: JoinedRow | IsKept(a, j)
      ensures q in j && (j[q].Some? ==> j[q].value in RowsOf(a.db, e.node.table))
    {
      JoinsSound(a, r, n, p, e, j);
    }
    forall row | row in a.rows && KeyOf(c, row).Some?
      ensures KeyOf(c, row).value in Visited(a.root, row) && Visited(a.root, row)[KeyOf(c, row).value] == c
    {
      ChildIsVisited(a, r, n, p, c, e, row);
    }
  }

  lemma {:induction false} CleanChild(rs: seq<RowObject>, row: ResultRow, c: RowObject)
    requires CleanAll(rs) && c in rs
    ensures Clean(c)
    ensures KeyOf(c, row).Some? ==> KeyOf(c, row).value in VisitedAll(rs, row) &&
                                    VisitedAll(rs, row)[KeyOf(c, row).value] == c
    decreases rs
  {
    VisitedApart(rs[0], rs[1..], row);
    if c != rs[0] {
      CleanChild(rs[1..], row, c);
    }
  }

  // ---------------------------------------------------------------- one object

  /** The rows of an object are exactly the result rows that show its database row. */
  lemma HistoryShows(a: Answer, r: RowObject, n: Node, p: Path, x: Row, j0: JoinedRow, row: ResultRow)
    requires Answered(a) && At(a, r, n, p) && IsKept(a, j0) && p in j0 && j0[p] == Some(x)
    requires row in a.rows
    ensures var k := NodeKey(n, p, x);
            k in Visited(a.root, row) <==> KeyOf(r, row) == Some(k)
    ensures var k := NodeKey(n, p, x);
            k in Visited(a.root, row) ==> Visited(a.root, row)[k] == r
  {
    var k := NodeKey(n, p, x);
    KeyAt(a, r, n, p, j0);
    var row0 := Project(a.labels, j0);
    assert k in Visited(a.root, row0) && Visited(a.root, row0)[k] == r;
    if k in Visited(a.root, row) {
      OneTypePerKey(a.root, row, row0, k);
      VisitedNames(a.root, row, k);
    }
  }

  /** Two joined rows that show one key at a type show one database row there. */
  lemma KeyDetermines(a: Answer, r: RowObject, n: Node, p: Path, x: Row, j: JoinedRow)
    requires Answered(a) && At(a, r, n, p) && IsKept(a, j) && x in RowsOf(a.db, n.table)
    requires KeyOf(r, Project(a.labels, j)) == Some(NodeKey(n, p, x))
    ensures p in j && j[p] == Some(x)
  {
    KeyAt(a, r, n, p, j);
    var y := j[p].value;
    CacheKeyIsInjective(Dotted(p), n.key, Col(x, n.key).text, Dotted(p), n.key, Col(y, n.key).text);
  }

  /** The cached object of a database row, and the history it stems from. */
  lemma CachedHere(a: Answer, r: RowObject, n: Node, p: Path, x: Row, j0: JoinedRow)
    requires Answered(a) && At(a, r, n, p) && IsKept(a, j0) && p in j0 && j0[p] == Some(x)
    ensures var k := NodeKey(n, p, x); var h := History(a.root, a.rows, k);
            h != [] && TouchAll(r, h, a.many).Some? && k in Cache(a) &&
            Cache(a)[k] == TouchAll(r, h, a.many).value
    ensures forall j :: IsKept(a, j) && Project(a.labels, j) in History(a.root, a.rows, NodeKey(n, p, x)) ==>
              p in j && j[p] == Some(x)
    ensures forall j :: IsKept(a, j) && p in j && j[p] == Some(x) ==>
              Project(a.labels, j) in History(a.root, a.rows, NodeKey(n, p, x))
  {
    var k := NodeKey(n, p, x);
    var h := History(a.root, a.rows, k);
    forall row | row in a.rows && k in Visited(a.root, row)
      ensures Visited(a.root, row)[k] == r
    {
      HistoryShows(a, r, n, p, x, j0, row);
    }
    CachedObject(a.root, a.rows, a.many, k, r);
    forall j | IsKept(a, j) && Project(a.labels, j) in h
      ensures p in j && j[p] == Some(x)
    {
      HistoryShows(a, r, n, p, x, j0, Project(a.labels, j));
      KeyDetermines(a, r, n, p, x, j);
    }
    forall j: JoinedRow | IsKept(a, j) && p in j && j[p] == Some(x)
      ensures Project(a.labels, j) in h
    {
      KeyAt(a, r, n, p, j);
      HistoryShows(a, r, n, p, x, j0, Project(a.labels, j));
    }
    assert Project(a.labels, j0) in h;
    FieldsAfter(r, h, a.many, "");
  }

  /** The rows that some kept row shows under a field, beside this row. */
  ghost function Kids(a: Answer, p: Path, x: Row, e: Edge): set<Row> {
    set y | y in RowsOf(a.db, e.node.table) && Beside(a, p, x, p + [e.field], y)
  }

  ghost predicate Beside(a: Answer, p: Path, x: Row, q: Path, y: Row) {
    exists j: JoinedRow :: IsKept(a, j) && p in j && j[p] == Some(x) && q in j && j[q] == Some(y)
  }

  /** The child keys an object's rows show are the keys of the rows shown beside it. */
  lemma ChildrenSeen(
      a: Answer, r: RowObject, n: Node, p: Path, x: Row, j0: JoinedRow, c: RowObject, e: Edge, m: string)
    requires Answered(a) && At(a, r, n, p) && IsKept(a, j0) && p in j0 && j0[p] == Some(x)
    requires c in r.children && e in n.edges && c.parentField == e.field
    ensures m in KeysSeen(c, History(a.root, a.rows, NodeKey(n, p, x))) <==>
              exists y :: y in Kids(a, p, x, e) && m == NodeKey(e.node, p + [e.field], y)
  {
    var q := p + [e.field];
    var h := History(a.root, a.rows, NodeKey(n, p, x));
    CachedHere(a, r, n, p, x, j0);
    Descends(a, r, n, p, c, e);
    if m in KeysSeen(c, h) {
      var row :| row in h && KeyOf(c, row) == Some(m);
      var j: JoinedRow :| IsKept(a, j) && row == Project(a.labels, j);
      KeyAt(a, c, e.node, q, j);
      assert Beside(a, p, x, q, j[q].value);
      assert j[q].value in Kids(a, p, x, e);
    }
    if y :| y in Kids(a, p, x, e) && m == NodeKey(e.node, q, y) {
      var j: JoinedRow :| IsKept(a, j) && p in j && j[p] == Some(x) && q in j && j[q] == Some(y);
      KeyAt(a, c, e.node, q, j);
      assert Project(a.labels, j) in h;
    }
  }

  predicate KeysHold(keys: set<string>, isMany: bool) {
    forall m, m' | m in keys && m' in keys && (!isMany || JavaHash(m) == JavaHash(m')) :: m == m'
  }

  /** A link leads to a child that was seen, and a has-many set holds no two keys of one hash code. */
  lemma LinkedIsSeen(o: Object, c: RowObject, h: seq<ResultRow>, isMany: bool)
    requires h != [] && FieldAt(o, c.parentField) == ChildField(c, h, isMany)
    ensures Linked(o, c.parentField) <= KeysSeen(c, h)
    ensures isMany ==> NoCollision(Linked(o, c.parentField))
    ensures !isMany ==> forall m, m' :: m in Linked(o, c.parentField) && m' in Linked(o, c.parentField) ==> m == m'
    ensures Linked(o, c.parentField) == KeysSeen(c, h) <==> KeysHold(KeysSeen(c, h), isMany)
  {
    if isMany {
      ManyField(c, h);
      AscendingHasNoCollision(ChildField(c, h, true).value.keys);
      HasManyIsCompleteIffNoCollision(c, h);
    } else {
      OneField(c, h);
    }
  }

  /** The links of an object under a selected field. */
  lemma LinksHere(a: Answer, r: RowObject, n: Node, p: Path, x: Row, j0: JoinedRow, c: RowObject, e: Edge)
    requires Answered(a) && At(a, r, n, p) && IsKept(a, j0) && p in j0 && j0[p] == Some(x)
    requires c in r.children && e in n.edges && c.parentField == e.field
    ensures var h := History(a.root, a.rows, NodeKey(n, p, x));
            h != [] && NodeKey(n, p, x) in Cache(a) &&
            FieldAt(Cache(a)[NodeKey(n, p, x)], c.parentField) == ChildField(c, h, e.hasMany)
  {
    CachedHere(a, r, n, p, x, j0);
    Descends(a, r, n, p, c, e);
    FieldsAfter(r, History(a.root, a.rows, NodeKey(n, p, x)), a.many, e.field);
  }

  /** Rows of a keyed table have different cache keys. */
  predicate KeysDiffer(n: Node, p: Path, ys: set<Row>) {
    forall y, z | y in ys && z in ys && NodeKey(n, p, y) == NodeKey(n, p, z) :: y == z
  }

  lemma KidKeysDiffer(a: Answer, r: RowObject, n: Node, p: Path, x: Row, c: RowObject, e: Edge)
    requires At(a, r, n, p) && c in r.children && e in n.edges && c.parentField == e.field && Clean(c)
    ensures KeysDiffer(e.node, p + [e.field], Kids(a, p, x, e))
  {
    var q, table := p + [e.field], RowsOf(a.db, e.node.table);
    assert Mirrors(c, e.node, q, a.labels, a.many) && Keyed(a.db, e.node);
    forall y, z | y in table && z in table && NodeKey(e.node, q, y) == NodeKey(e.node, q, z)
      ensures y == z
    {
      CacheKeyIsInjective(Dotted(q), e.node.key, Col(y, e.node.key).text,
                          Dotted(q), e.node.key, Col(z, e.node.key).text);
    }
  }

  /** The loader can keep rows apart under a field: one row of a to-one field, one hash code per has-many child. */
  predicate KeptApart(n: Node, p: Path, isMany: bool, ys: set<Row>) {
    forall y, z | y in ys && z in ys && (!isMany || Collide(n, p, y, z)) :: y == z
  }

  lemma ApartByKeys(n: Node, p: Path, isMany: bool, ys: set<Row>, keys: set<string>)
    requires KeysDiffer(n, p, ys) && forall m :: m in keys <==> exists y :: y in ys && m == NodeKey(n, p, y)
    ensures KeysHold(keys, isMany) <==> KeptApart(n, p, isMany, ys)
  {
    assert forall y :: y in ys ==> NodeKey(n, p, y) in keys;
    if KeptApart(n, p, isMany, ys) {
      forall m, m' | m in keys && m' in keys && (!isMany || JavaHash(m) == JavaHash(m'))
        ensures m == m'
      {
        var y, z :| y in ys && m == NodeKey(n, p, y) && z in ys && m' == NodeKey(n, p, z);
      }
    }
  }

  ghost predicate FieldHolds(a: Answer, p: Path, x: Row, e: Edge) {
    KeptApart(e.node, p + [e.field], e.hasMany, Kids(a, p, x, e))
  }

  /** A field links exactly the children shown beside the object iff the loader can keep them apart. */
  lemma LinkedIffHolds(a: Answer, r: RowObject, n: Node, p: Path, x: Row, j0: JoinedRow, c: RowObject, e: Edge)
    requires Answered(a) && At(a, r, n, p) && IsKept(a, j0) && p in j0 && j0[p] == Some(x)
    requires c in r.children && e in n.edges && c.parentField == e.field
    ensures NodeKey(n, p, x) in Cache(a)
    ensures Linked(Cache(a)[NodeKey(n, p, x)], e.field) == KeysSeen(c, History(a.root, a.rows, NodeKey(n, p, x))) <==>
              FieldHolds(a, p, x, e)
  {
    var h := History(a.root, a.rows, NodeKey(n, p, x));
    LinksHere(a, r, n, p, x, j0, c, e);
    LinkedIsSeen(Cache(a)[NodeKey(n, p, x)], c, h, e.hasMany);
    CleanChild(r.children, map[], c);
    KidKeysDiffer(a, r, n, p, x, c, e);
    forall m
      ensures m in KeysSeen(c, h) <==> exists y :: y in Kids(a, p, x, e) && m == NodeKey(e.node, p + [e.field], y)
    {
      ChildrenSeen(a, r, n, p, x, j0, c, e, m);
    }
    ApartByKeys(e.node, p + [e.field], e.hasMany, Kids(a, p, x, e), KeysSeen(c, h));
  }

  /** The object has exactly the selected columns of its row. */
  lemma ScalarsHere(a: Answer, r: RowObject, n: Node, p: Path, x: Row, j0: JoinedRow)
    requires Answered(a) && At(a, r, n, p) && IsKept(a, j0) && p in j0 && j0[p] == Some(x)
    ensures Reify(Cache(a), r, NodeKey(n, p, x)).scalars == ScalarsOf(n, x)
  {
    var k := NodeKey(n, p, x);
    CachedHere(a, r, n, p, x, j0);
    var o := Cache(a)[k];
    forall f
      ensures f in n.columns ==> FieldAt(o, f) == Some(Scalar(Col(x, f)))
      ensures f in o && o[f].Scalar? ==> f in n.columns
    {
      if f == n.key {
        KeyHere(a, r, n, p, x, j0);
      } else if f in NamesOf(r.values) {
        ColumnHere(a, r, n, p, x, j0, f);
      } else {
        NoOtherScalar(r, History(a.root, a.rows, k), a.many, f);
      }
    }
    ScalarsEqual(o, n, x);
  }

  lemma ScalarsEqual(o: Object, n: Node, x: Row)
    requires forall f :: f in n.columns ==> FieldAt(o, f) == Some(Scalar(Col(x, f)))
    requires forall f :: f in o && o[f].Scalar? ==> f in n.columns
    ensures (map f | f in o && o[f].Scalar? :: o[f].v) == ScalarsOf(n, x)
  {
    forall f | f in n.columns
      ensures f in o && o[f] == Scalar(Col(x, f))
    {
      assert FieldAt(o, f) == Some(Scalar(Col(x, f)));
    }
  }

  lemma NoOtherScalar(r: RowObject, h: seq<ResultRow>, many: set<string>, f: string)
    requires Apart(r) && h != [] && f != r.key.name && f !in NamesOf(r.values)
    ensures TouchAll(r, h, many).Some?
    ensures f in TouchAll(r, h, many).value ==> !TouchAll(r, h, many).value[f].Scalar?
  {
    FieldsAfter(r, h, many, f);
    if c :| c in r.children && c.parentField == f {
      if c.path in many {
        ManyField(c, h);
      } else {
        OneField(c, h);
      }
    }
  }

  lemma KeyHere(a: Answer, r: RowObject, n: Node, p: Path, x: Row, j0: JoinedRow)
    requires Answered(a) && At(a, r, n, p) && IsKept(a, j0) && p in j0 && j0[p] == Some(x)
    ensures n.key in n.columns && NodeKey(n, p, x) in Cache(a)
    ensures FieldAt(Cache(a)[NodeKey(n, p, x)], n.key) == Some(Scalar(Col(x, n.key)))
  {
    var h := History(a.root, a.rows, NodeKey(n, p, x));
    CachedHere(a, r, n, p, x, j0);
    FieldsAfter(r, h, a.many, n.key);
    assert h[0] in h;
    var j: JoinedRow :| IsKept(a, j) && h[0] == Project(a.labels, j);
    assert Get(h[0], r.key.columnLabel) == ColumnOf(j, Column(p, n.key));
  }

  lemma ColumnHere(a: Answer, r: RowObject, n: Node, p: Path, x: Row, j0: JoinedRow, f: string)
    requires Answered(a) && At(a, r, n, p) && IsKept(a, j0) && p in j0 && j0[p] == Some(x)
    requires f in NamesOf(r.values)
    ensures f in n.columns && NodeKey(n, p, x) in Cache(a)
    ensures FieldAt(Cache(a)[NodeKey(n, p, x)], f) == Some(Scalar(Col(x, f)))
  {
    var h := History(a.root, a.rows, NodeKey(n, p, x));
    CachedHere(a, r, n, p, x, j0);
    FieldsAfter(r, h, a.many, f);
    var c :| c in r.values && c.name == f;
    forall row | row in h
      ensures Get(row, c.columnLabel) == Col(x, f)
    {
      var j: JoinedRow :| IsKept(a, j) && row == Project(a.labels, j);
      assert Get(row, c.columnLabel) == ColumnOf(j, Column(p, f));
    }
    AgreedColumn(c, h, Col(x, f));
  }

  // ---------------------------------------------------------------- the round trip

  /** The nested objects the kept rows show: under every selected field the rows shown beside the object. */
  ghost function BuildShown(a: Answer, n: Node, p: Path, x: Row): Tree
    decreases n
  {
    Tree(ScalarsOf(n, x),
         set e, y | e in n.edges && y in Kids(a, p, x, e) :: (e.field, BuildShown(a, e.node, p + [e.field], y)))
  }

  /** The loader can keep apart what the rows show, at the object and below it. */
  ghost predicate Holds(a: Answer, n: Node, p: Path, x: Row)
    decreases n
  {
    forall e :: e in n.edges ==>
      FieldHolds(a, p, x, e) && forall y :: y in Kids(a, p, x, e) ==> Holds(a, e.node, p + [e.field], y)
  }

  /** A child is read back as shown iff the loader can hold it. */
  ghost predicate ChildRebuilt(a: Answer, p: Path, c: RowObject, e: Edge, y: Row) {
    var q := p + [e.field];
    Reify(Cache(a), c, NodeKey(e.node, q, y)).scalars == ScalarsOf(e.node, y) &&
    (Reify(Cache(a), c, NodeKey(e.node, q, y)) == BuildShown(a, e.node, q, y) <==> Holds(a, e.node, q, y))
  }

  /** Below an object: the hypothesis for every child. */
  ghost predicate ChildrenRebuilt(a: Answer, r: RowObject, n: Node, p: Path, x: Row) {
    forall c, e, y :: c in r.children && e in n.edges && c.parentField == e.field && y in Kids(a, p, x, e) ==>
      ChildRebuilt(a, p, c, e, y)
  }

  lemma ChildOf(r: RowObject, n: Node, p: Path, labels: map<string, Column>, many: set<string>, e: Edge)
    returns (c: RowObject)
    requires Mirrors(r, n, p, labels, many) && e in n.edges
    ensures c in r.children && c.parentField == e.field
  {
    assert e.field in EdgeFields(n.edges);
    c :| c in r.children && c.parentField == e.field;
  }

  lemma KidIsLinked(a: Answer, r: RowObject, n: Node, p: Path, x: Row, j0: JoinedRow, c: RowObject, e: Edge, y: Row)
    requires Answered(a) && At(a, r, n, p) && IsKept(a, j0) && p in j0 && j0[p] == Some(x)
    requires c in r.children && e in n.edges && c.parentField == e.field
    requires FieldHolds(a, p, x, e) && y in Kids(a, p, x, e)
    ensures NodeKey(n, p, x) in Cache(a)
    ensures NodeKey(e.node, p + [e.field], y) in Linked(Cache(a)[NodeKey(n, p, x)], c.parentField)
  {
    LinkedIffHolds(a, r, n, p, x, j0, c, e);
    ChildrenSeen(a, r, n, p, x, j0, c, e, NodeKey(e.node, p + [e.field], y));
  }

  lemma KidIsRead(a: Answer, r: RowObject, n: Node, p: Path, x: Row, j0: JoinedRow, e: Edge, y: Row)
    requires Answered(a) && At(a, r, n, p) && IsKept(a, j0) && p in j0 && j0[p] == Some(x)
    requires Holds(a, n, p, x) && ChildrenRebuilt(a, r, n, p, x) && e in n.edges && y in Kids(a, p, x, e)
    ensures (e.field, BuildShown(a, e.node, p + [e.field], y)) in Reify(Cache(a), r, NodeKey(n, p, x)).kids
  {
    var c := ChildOf(r, n, p, a.labels, a.many, e);
    KidIsLinked(a, r, n, p, x, j0, c, e, y);
    assert ChildRebuilt(a, p, c, e, y);
    LinkIsKid(Cache(a), r, NodeKey(n, p, x), c, NodeKey(e.node, p + [e.field], y));
  }

  lemma LinkIsKid(cache: map<string, Object>, r: RowObject, k: string, c: RowObject, m: string)
    requires k in cache && c in r.children && m in Linked(cache[k], c.parentField)
    ensures (c.parentField, Reify(cache, c, m)) in Reify(cache, r, k).kids
  {
  }

  lemma KidIsLink(cache: map<string, Object>, r: RowObject, k: string, kid: (string, Tree))
    returns (c: RowObject, m: string)
    requires k in cache && kid in Reify(cache, r, k).kids
    ensures c in r.children && m in Linked(cache[k], c.parentField) && kid == (c.parentField, Reify(cache, c, m))
  {
    c, m :| c in r.children && m in Linked(cache[k], c.parentField) && kid == (c.parentField, Reify(cache, c, m));
  }

  /** A linked child is one shown beside the object. */
  lemma KidIsShown(a: Answer, r: RowObject, n: Node, p: Path, x: Row, j0: JoinedRow, c: RowObject, m: string)
    returns (e: Edge, y: Row)
    requires Answered(a) && At(a, r, n, p) && IsKept(a, j0) && p in j0 && j0[p] == Some(x)
    requires NodeKey(n, p, x) in Cache(a)
    requires c in r.children && m in Linked(Cache(a)[NodeKey(n, p, x)], c.parentField)
    ensures e in n.edges && c.parentField == e.field && y in Kids(a, p, x, e) && m == NodeKey(e.node, p + [e.field], y)
  {
    assert c.parentField in FieldsOf(r.children);
    e :| e in n.edges && e.field == c.parentField;
    LinksHere(a, r, n, p, x, j0, c, e);
    LinkedIsSeen(Cache(a)[NodeKey(n, p, x)], c, History(a.root, a.rows, NodeKey(n, p, x)), e.hasMany);
    ChildrenSeen(a, r, n, p, x, j0, c, e, m);
    y :| y in Kids(a, p, x, e) && m == NodeKey(e.node, p + [e.field], y);
  }

  lemma KidIsBuilt(a: Answer, n: Node, p: Path, x: Row, kid: (string, Tree)) returns (e: Edge, y: Row)
    requires kid in BuildShown(a, n, p, x).kids
    ensures e in n.edges && y in Kids(a, p, x, e) && kid == (e.field, BuildShown(a, e.node, p + [e.field], y))
  {
    e, y :| e in n.edges && y in Kids(a, p, x, e) && kid == (e.field, BuildShown(a, e.node, p + [e.field], y));
  }

  lemma RebuiltIfHolds(a: Answer, r: RowObject, n: Node, p: Path, x: Row, j0: JoinedRow)
    requires Answered(a) && At(a, r, n, p) && IsKept(a, j0) && p in j0 && j0[p] == Some(x)
    requires Holds(a, n, p, x) && ChildrenRebuilt(a, r, n, p, x)
    ensures Reify(Cache(a), r, NodeKey(n, p, x)) == BuildShown(a, n, p, x)
  {
    CachedHere(a, r, n, p, x, j0);
    ScalarsHere(a, r, n, p, x, j0);
    var built, read := BuildShown(a, n, p, x), Reify(Cache(a), r, NodeKey(n, p, x));
    forall kid | kid in built.kids
      ensures kid in read.kids
    {
      var e, y := KidIsBuilt(a, n, p, x, kid);
      KidIsRead(a, r, n, p, x, j0, e, y);
    }
    forall kid | kid in read.kids
      ensures kid in built.kids
    {
      var c, m := KidIsLink(Cache(a), r, NodeKey(n, p, x), kid);
      var e, y := KidIsShown(a, r, n, p, x, j0, c, m);
      assert ChildRebuilt(a, p, c, e, y);
    }
  }

  lemma SameChildField(r: RowObject, c: RowObject, d: RowObject)
    requires Apart(r) && c in r.children && d in r.children && c.parentField == d.parentField
    ensures c == d
  {
    var i, k :| 0 <= i < |r.children| && 0 <= k < |r.children| && r.children[i] == c && r.children[k] == d;
    assert i == k;
  }

  /** An object read back as shown has every shown child under the key of some row shown. */
  lemma ShownIsSomeKid(
      a: Answer, r: RowObject, n: Node, p: Path, x: Row, j0: JoinedRow, c: RowObject, e: Edge, y: Row) returns (z: Row)
    requires Answered(a) && At(a, r, n, p) && IsKept(a, j0) && p in j0 && j0[p] == Some(x)
    requires c in r.children && e in n.edges && c.parentField == e.field
    requires Reify(Cache(a), r, NodeKey(n, p, x)) == BuildShown(a, n, p, x) && y in Kids(a, p, x, e)
    ensures NodeKey(n, p, x) in Cache(a) && z in Kids(a, p, x, e)
    ensures NodeKey(e.node, p + [e.field], z) in Linked(Cache(a)[NodeKey(n, p, x)], e.field)
    ensures Reify(Cache(a), c, NodeKey(e.node, p + [e.field], z)) == BuildShown(a, e.node, p + [e.field], y)
  {
    CachedHere(a, r, n, p, x, j0);
    var kid := (e.field, BuildShown(a, e.node, p + [e.field], y));
    assert kid in BuildShown(a, n, p, x).kids;
    var d, m := KidIsLink(Cache(a), r, NodeKey(n, p, x), kid);
    SameChildField(r, c, d);
    var e';
    e', z := KidIsShown(a, r, n, p, x, j0, c, m);
    SameEdgeField(n.edges, e, e');
  }

  lemma KeyedRowsDiffer(db: Database, n: Node, y: Row, z: Row)
    requires Keyed(db, n) && n.key in n.columns && y in RowsOf(db, n.table) && z in RowsOf(db, n.table)
    requires ScalarsOf(n, y) == ScalarsOf(n, z)
    ensures y == z
  {
    assert ScalarsOf(n, y)[n.key] == ScalarsOf(n, z)[n.key];
  }

  /** That key is its own. */
  lemma ShownIsLinked(
      a: Answer, r: RowObject, n: Node, p: Path, x: Row, j0: JoinedRow, c: RowObject, e: Edge, y: Row)
    requires Answered(a) && At(a, r, n, p) && IsKept(a, j0) && p in j0 && j0[p] == Some(x)
    requires c in r.children && e in n.edges && c.parentField == e.field
    requires ChildrenRebuilt(a, r, n, p, x) && Reify(Cache(a), r, NodeKey(n, p, x)) == BuildShown(a, n, p, x)
    requires y in Kids(a, p, x, e)
    ensures NodeKey(n, p, x) in Cache(a)
    ensures NodeKey(e.node, p + [e.field], y) in Linked(Cache(a)[NodeKey(n, p, x)], e.field)
    ensures Holds(a, e.node, p + [e.field], y)
  {
    var z := ShownIsSomeKid(a, r, n, p, x, j0, c, e, y);
    assert ChildRebuilt(a, p, c, e, y) && ChildRebuilt(a, p, c, e, z);
    assert ScalarsOf(e.node, y) == ScalarsOf(e.node, z);
    assert Mirrors(c, e.node, p + [e.field], a.labels, a.many);
    KeyedRowsDiffer(a.db, e.node, y, z);
  }

  lemma FieldHoldsIfRebuilt(a: Answer, r: RowObject, n: Node, p: Path, x: Row, j0: JoinedRow, c: RowObject, e: Edge)
    requires Answered(a) && At(a, r, n, p) && IsKept(a, j0) && p in j0 && j0[p] == Some(x)
    requires c in r.children && e in n.edges && c.parentField == e.field
    requires ChildrenRebuilt(a, r, n, p, x) && Reify(Cache(a), r, NodeKey(n, p, x)) == BuildShown(a, n, p, x)
    ensures FieldHolds(a, p, x, e)
  {
    var h := History(a.root, a.rows, NodeKey(n, p, x));
    LinkedIffHolds(a, r, n, p, x, j0, c, e);
    LinksHere(a, r, n, p, x, j0, c, e);
    LinkedIsSeen(Cache(a)[NodeKey(n, p, x)], c, h, e.hasMany);
    forall m | m in KeysSeen(c, h)
      ensures m in Linked(Cache(a)[NodeKey(n, p, x)], e.field)
    {
      ChildrenSeen(a, r, n, p, x, j0, c, e, m);
      var y :| y in Kids(a, p, x, e) && m == NodeKey(e.node, p + [e.field], y);
      ShownIsLinked(a, r, n, p, x, j0, c, e, y);
    }
  }

  lemma HoldsIfRebuilt(a: Answer, r: RowObject, n: Node, p: Path, x: Row, j0: JoinedRow)
    requires Answered(a) && At(a, r, n, p) && IsKept(a, j0) && p in j0 && j0[p] == Some(x)
    requires ChildrenRebuilt(a, r, n, p, x) && Reify(Cache(a), r, NodeKey(n, p, x)) == BuildShown(a, n, p, x)
    ensures Holds(a, n, p, x)
  {
    forall e | e in n.edges
      ensures FieldHolds(a, p, x, e) && forall y :: y in Kids(a, p, x, e) ==> Holds(a, e.node, p + [e.field], y)
    {
      var c := ChildOf(r, n, p, a.labels, a.many, e);
      FieldHoldsIfRebuilt(a, r, n, p, x, j0, c, e);
      forall y | y in Kids(a, p, x, e)
        ensures Holds(a, e.node, p + [e.field], y)
      {
        ShownIsLinked(a, r, n, p, x, j0, c, e, y);
      }
    }
  }

  /**
   The round trip, below any shown row: the object the loader has cached for it, read with everything it refers to,
   is the object the rows show if and only if no to-one field shows two children and no two children of one has-many
   field have keys of one hash code.
   */
  lemma {:induction false} Rebuilt(a: Answer, r: RowObject, n: Node, p: Path, x: Row, j0: JoinedRow)
    requires Answered(a) && At(a, r, n, p) && IsKept(a, j0) && p in j0 && j0[p] == Some(x)
    ensures Reify(Cache(a), r, NodeKey(n, p, x)) == BuildShown(a, n, p, x) <==> Holds(a, n, p, x)
    decreases r, 1
  {
    forall c, e, y | c in r.children && e in n.edges && c.parentField == e.field && y in Kids(a, p, x, e)
      ensures ChildRebuilt(a, p, c, e, y)
    {
      RebuiltBelow(a, r, n, p, x, c, e, y);
    }
    if Holds(a, n, p, x) {
      RebuiltIfHolds(a, r, n, p, x, j0);
    } else if Reify(Cache(a), r, NodeKey(n, p, x)) == BuildShown(a, n, p, x) {
      HoldsIfRebuilt(a, r, n, p, x, j0);
    }
  }

  lemma {:induction false} RebuiltBelow(
      a: Answer, r: RowObject, n: Node, p: Path, x: Row, c: RowObject, e: Edge, y: Row)
    requires Answered(a) && At(a, r, n, p) && c in r.children && e in n.edges && c.parentField == e.field
    requires y in Kids(a, p, x, e)
    ensures ChildRebuilt(a, p, c, e, y)
    decreases r, 0
  {
    var q := p + [e.field];
    Descends(a, r, n, p, c, e);
    var j: JoinedRow :| IsKept(a, j) && p in j && j[p] == Some(x) && q in j && j[q] == Some(y);
    ScalarsHere(a, c, e.node, q, y, j);
    Rebuilt(a, c, e.node, q, y, j);
  }

  // ---------------------------------------------------------------- nothing filtered: nested loops

  function JoinedKids(db: Database, e: Edge, x: Row): set<Row> {
    set y | y in RowsOf(db, e.node.table) && JoinsTo(db, e, x, y)
  }

  /** When no joined row is dropped, the rows shown beside an object are the rows it joins to. */
  lemma KidsAreJoined(a: Answer, r: RowObject, n: Node, p: Path, x: Row, j0: JoinedRow, e: Edge)
    requires Answered(a) && At(a, r, n, p) && IsKept(a, j0) && p in j0 && j0[p] == Some(x)
    requires Whole(a) && e in n.edges
    ensures Kids(a, p, x, e) == JoinedKids(a.db, e, x)
  {
    var q := p + [e.field];
    forall y | y in Kids(a, p, x, e)
      ensures JoinsTo(a.db, e, x, y)
    {
      var j: JoinedRow :| IsKept(a, j) && p in j && j[p] == Some(x) && q in j && j[q] == Some(y);
      JoinsSound(a, r, n, p, e, j);
    }
    forall y | y in JoinedKids(a.db, e, x)
      ensures Beside(a, p, x, q, y)
    {
      var j := JoinsComplete(a, r, n, p, e, j0, y);
    }
  }

  /** What is shown at a type is what nested loops build, and what the loader asks is asked of the data. */
  ghost predicate ShownBuilt(a: Answer, n: Node, p: Path, x: Row) {
    BuildShown(a, n, p, x) == Build(a.db, n, x) &&
    (Holds(a, n, p, x) <==> AtMostOne(a.db, n, x) && SiblingsApart(a.db, n, p, x))
  }

  lemma {:induction false} ShownIsBuilt(a: Answer, r: RowObject, n: Node, p: Path, x: Row, j0: JoinedRow)
    requires Answered(a) && At(a, r, n, p) && IsKept(a, j0) && p in j0 && j0[p] == Some(x)
    requires Whole(a)
    ensures ShownBuilt(a, n, p, x)
    decreases r, 1
  {
    forall e | e in n.edges
      ensures Kids(a, p, x, e) == JoinedKids(a.db, e, x)
    {
      KidsAreJoined(a, r, n, p, x, j0, e);
    }
    forall e, y | e in n.edges && y in JoinedKids(a.db, e, x)
      ensures ShownBuilt(a, e.node, p + [e.field], y)
    {
      ShownIsBuiltBelow(a, r, n, p, x, j0, e, y);
    }
    KidsShown(a, n, p, x);
    HoldsShown(a, n, p, x);
  }

  lemma {:induction false} ShownIsBuiltBelow(
      a: Answer, r: RowObject, n: Node, p: Path, x: Row, j0: JoinedRow, e: Edge, y: Row)
    requires Answered(a) && At(a, r, n, p) && IsKept(a, j0) && p in j0 && j0[p] == Some(x)
    requires Whole(a) && e in n.edges && JoinsTo(a.db, e, x, y)
    ensures ShownBuilt(a, e.node, p + [e.field], y)
    decreases r, 0
  {
    var c := ChildOf(r, n, p, a.labels, a.many, e);
    Descends(a, r, n, p, c, e);
    var j := JoinsComplete(a, r, n, p, e, j0, y);
    ShownIsBuilt(a, c, e.node, p + [e.field], y, j);
  }

  lemma FieldHoldsShown(a: Answer, p: Path, x: Row, e: Edge)
    requires Kids(a, p, x, e) == JoinedKids(a.db, e, x)
    ensures FieldHolds(a, p, x, e) <==>
              (!e.hasMany ==> forall y, z :: JoinsTo(a.db, e, x, y) && JoinsTo(a.db, e, x, z) ==> y == z) &&
              (e.hasMany ==>
                 forall y, z | JoinsTo(a.db, e, x, y) && JoinsTo(a.db, e, x, z) &&
                               Collide(e.node, p + [e.field], y, z) :: y == z)
  {
    var ys := JoinedKids(a.db, e, x);
    assert forall y :: y in ys <==> JoinsTo(a.db, e, x, y);
  }

  lemma HoldsShown(a: Answer, n: Node, p: Path, x: Row)
    requires forall e :: e in n.edges ==> Kids(a, p, x, e) == JoinedKids(a.db, e, x)
    requires forall e, y :: e in n.edges && y in JoinedKids(a.db, e, x) ==> ShownBuilt(a, e.node, p + [e.field], y)
    ensures Holds(a, n, p, x) <==> AtMostOne(a.db, n, x) && SiblingsApart(a.db, n, p, x)
  {
    forall e | e in n.edges
      ensures (FieldHolds(a, p, x, e) && forall y :: y in Kids(a, p, x, e) ==> Holds(a, e.node, p + [e.field], y)) <==>
                EdgeAtMostOne(a.db, e, x) && EdgeApart(a.db, e, p, x)
    {
      FieldHoldsShown(a, p, x, e);
      assert forall y :: y in JoinedKids(a.db, e, x) <==> JoinsTo(a.db, e, x, y);
    }
  }

  lemma KidsShown(a: Answer, n: Node, p: Path, x: Row)
    requires forall e :: e in n.edges ==> Kids(a, p, x, e) == JoinedKids(a.db, e, x)
    requires forall e, y :: e in n.edges && y in JoinedKids(a.db, e, x) ==> ShownBuilt(a, e.node, p + [e.field], y)
    ensures BuildShown(a, n, p, x) == Build(a.db, n, x)
  {
    var shown, built := BuildShown(a, n, p, x).kids, Build(a.db, n, x).kids;
    forall kid | kid in shown
      ensures kid in built
    {
      var e, y := KidIsBuilt(a, n, p, x, kid);
      assert ShownBuilt(a, e.node, p + [e.field], y);
    }
    forall kid | kid in built
      ensures kid in shown
    {
      var e, y :| e in n.edges && y in RowsOf(a.db, e.node.table) && JoinsTo(a.db, e, x, y) &&
                  kid == (e.field, Build(a.db, e.node, y));
      assert y in JoinedKids(a.db, e, x) && ShownBuilt(a, e.node, p + [e.field], y);
    }
  }
}
