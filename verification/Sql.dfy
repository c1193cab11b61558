/**
 The part of SQL the queries use, over finite tables: left outer joins (section 7.5 of ISO/IEC 9075:1992),
 a WHERE clause, DISTINCT, ORDER BY, LIMIT and OFFSET. A joined row gives, for every table of the query, a
 row of it or NULLs.
 */
module Sql {
  import opened Truth
  import opened Filters
  import opened Seqs

  type Row = map<string, Value>
  type Table = seq<Row>

  /** The rows of every table, the columns it is declared with, and how values compare. */
  datatype Database = Database(tables: map<string, Table>, columns: map<string, set<string>>, collation: Collation)

  type JoinedRow = map<Path, Option<Row>>

  datatype Bridge = Bridge(table: string, parentKey: string, childKey: string)

  /** `LEFT OUTER JOIN table ON parent.parentColumn = table.childColumn AND filter`, perhaps through a bridge. */
  datatype Join = Join(
    path: Path, parent: Path, table: string, parentColumn: string, childColumn: string,
    bridge: Option<Bridge>, filter: Option<Condition>)

  /** A join of an executing statement: its `?` have their values. */
  datatype BoundJoin = BoundJoin(join: Join, args: seq<Operand>)

  function RowsOf(db: Database, table: string): Table {
    if table in db.tables then db.tables[table] else []
  }

  predicate HasColumn(db: Database, table: string, field: string) {
    table in db.columns && field in db.columns[table]
  }

  function Col(row: Row, field: string): Value {
    if field in row then row[field] else Null
  }

  function ColumnOf(j: JoinedRow, c: Column): Value {
    if c.table in j && j[c.table].Some? then Col(j[c.table].value, c.field) else Null
  }

  function EnvOf(j: JoinedRow): Env {
    (c: Column) => ColumnOf(j, c)
  }

  /** The labelled columns of a joined row. */
  function Project(labels: map<string, Column>, j: JoinedRow): map<string, Value> {
    map l | l in labels :: ColumnOf(j, labels[l])
  }

  function FilterHoles(filter: Option<Condition>): nat {
    if filter.Some? then Holes(filter.value) else 0
  }

  predicate Fits(b: BoundJoin) {
    |b.args| == FilterHoles(b.join.filter)
  }

  function FilterHolds(db: Database, filter: Option<Condition>, args: seq<Operand>, env: Env): bool
    requires |args| == FilterHoles(filter)
  {
    filter.Some? ==> Eval(filter.value, db.collation, env, args) == Yes
  }

  predicate Shows(db: Database, b: BoundJoin, j: JoinedRow, child: Row)
    requires Fits(b)
  {
    FilterHolds(db, b.join.filter, b.args, EnvOf(j[b.join.path := Some(child)]))
  }

  /** The rows of the joined table that meet the ON condition, or NULLs when there are none. */
  function Matches(db: Database, b: BoundJoin, left: Value, j: JoinedRow): (r: seq<Option<Row>>)
    requires Fits(b)
    ensures r != []
  {
    var on := (c: Row) => Equal3(left, Col(c, b.join.childColumn)) == Yes &&
                          Shows(db, b, j, c);
    var found := Keep(RowsOf(db, b.join.table), on);
    if found == [] then [None] else Map(found, (c: Row) => Some(c))
  }

  lemma MatchesMember(db: Database, b: BoundJoin, left: Value, j: JoinedRow, c: Row)
    requires Fits(b)
    ensures Some(c) in Matches(db, b, left, j) <==>
              c in RowsOf(db, b.join.table) && Equal3(left, Col(c, b.join.childColumn)) == Yes &&
              Shows(db, b, j, c)
  {
    var on := (c: Row) => Equal3(left, Col(c, b.join.childColumn)) == Yes &&
                          Shows(db, b, j, c);
    var found := Keep(RowsOf(db, b.join.table), on);
    var somes := Map(found, (c: Row) => Some(c));
    if c in found {
      var i :| 0 <= i < |found| && found[i] == c;
      assert somes[i] == Some(c);
    }
  }

  /** With a bridge: first the bridge rows of the parent (or NULLs), then the matches of each. */
  function Extensions(db: Database, b: BoundJoin, j: JoinedRow): seq<Option<Row>>
    requires Fits(b)
  {
    var left := ColumnOf(j, Column(b.join.parent, b.join.parentColumn));
    if b.join.bridge.None? then Matches(db, b, left, j)
    else
      var bridge := b.join.bridge.value;
      var crossed := Keep(RowsOf(db, bridge.table), (r: Row) => Equal3(Col(r, bridge.parentKey), left) == Yes);
      if crossed == [] then Matches(db, b, Null, j)
      else FlatMap(crossed, (r: Row) => Matches(db, b, Col(r, bridge.childKey), j))
  }

  /** The key part of the ON condition, read on a parent row and a child row. */
  predicate KeysMeet(db: Database, bridge: Option<Bridge>, childColumn: string, left: Value, child: Row) {
    if bridge.None? then Equal3(left, Col(child, childColumn)) == Yes
    else exists r :: r in RowsOf(db, bridge.value.table) &&
                     Equal3(Col(r, bridge.value.parentKey), left) == Yes &&
                     Equal3(Col(r, bridge.value.childKey), Col(child, childColumn)) == Yes
  }

  lemma ExtensionsMember(db: Database, b: BoundJoin, j: JoinedRow, c: Row)
    requires Fits(b)
    ensures Extensions(db, b, j) != []
    ensures Some(c) in Extensions(db, b, j) <==>
              c in RowsOf(db, b.join.table) &&
              KeysMeet(db, b.join.bridge, b.join.childColumn,
                       ColumnOf(j, Column(b.join.parent, b.join.parentColumn)), c) &&
              Shows(db, b, j, c)
  {
    var left := ColumnOf(j, Column(b.join.parent, b.join.parentColumn));
    if b.join.bridge.None? {
      MatchesMember(db, b, left, j, c);
    } else {
      var bridge := b.join.bridge.value;
      var crossed := Keep(RowsOf(db, bridge.table), (r: Row) => Equal3(Col(r, bridge.parentKey), left) == Yes);
      var each := (r: Row) => Matches(db, b, Col(r, bridge.childKey), j);
      FlatMapMember(crossed, each, Some(c));
      MatchesMember(db, b, Null, j, c);
      forall r
        ensures Some(c) in each(r) <==>
                  c in RowsOf(db, b.join.table) && Equal3(Col(r, bridge.childKey), Col(c, b.join.childColumn)) == Yes &&
                  Shows(db, b, j, c)
      {
        MatchesMember(db, b, Col(r, bridge.childKey), j, c);
      }
      if crossed != [] {
        assert each(crossed[0]) != [];
      }
    }
  }

  function Extend(db: Database, b: BoundJoin, j: JoinedRow): seq<JoinedRow>
    requires Fits(b)
  {
    Map(Extensions(db, b, j), (o: Option<Row>) => j[b.join.path := o])
  }

  function Step(db: Database, rows: seq<JoinedRow>, b: BoundJoin): seq<JoinedRow>
    requires Fits(b)
  {
    FlatMap(rows, (j: JoinedRow) => Extend(db, b, j))
  }

  lemma StepMember(db: Database, rows: seq<JoinedRow>, b: BoundJoin, j: JoinedRow)
    requires Fits(b)
    ensures j in Step(db, rows, b) <==>
              exists i, o :: i in rows && o in Extensions(db, b, i) && j == i[b.join.path := o]
  {
    FlatMapMember(rows, (i: JoinedRow) => Extend(db, b, i), j);
    forall i: JoinedRow, o | o in Extensions(db, b, i) && j == i[b.join.path := o]
      ensures j in Extend(db, b, i)
    {
      var es := Extensions(db, b, i);
      var k :| 0 <= k < |es| && es[k] == o;
      assert Extend(db, b, i)[k] == j;
    }
    forall i: JoinedRow | j in Extend(db, b, i)
      ensures exists o :: o in Extensions(db, b, i) && j == i[b.join.path := o]
    {
      var k :| 0 <= k < |Extend(db, b, i)| && Extend(db, b, i)[k] == j;
      assert Extensions(db, b, i)[k] in Extensions(db, b, i);
    }
  }

  predicate AllFit(bs: seq<BoundJoin>) {
    forall b :: b in bs ==> Fits(b)
  }

  /** The joins of a statement, left to right. */
  function JoinAll(db: Database, rows: seq<JoinedRow>, bs: seq<BoundJoin>): seq<JoinedRow>
    requires AllFit(bs)
    decreases bs
  {
    if bs == [] then rows else JoinAll(db, Step(db, rows, bs[0]), bs[1..])
  }

  // ---------------------------------------------------------------- what left joins keep

  function Paths(bs: seq<BoundJoin>): set<Path> {
    set b | b in bs :: b.join.path
  }

  /** Every join adds a new table and hangs on one that is already there. */
  predicate Ordered(bs: seq<BoundJoin>, known: set<Path>) {
    bs == [] ||
    (bs[0].join.path !in known && bs[0].join.parent in known && Ordered(bs[1..], known + {bs[0].join.path}))
  }

  predicate Over(rows: seq<JoinedRow>, known: set<Path>) {
    forall j :: j in rows ==> j.Keys == known
  }

  predicate Agrees(i: JoinedRow, j: JoinedRow) {
    i.Keys <= j.Keys && forall p :: p in i ==> i[p] == j[p]
  }

  lemma StepIsOver(db: Database, rows: seq<JoinedRow>, b: BoundJoin, known: set<Path>)
    requires Fits(b) && Over(rows, known)
    ensures Over(Step(db, rows, b), known + {b.join.path})
  {
    forall j | j in Step(db, rows, b)
      ensures j.Keys == known + {b.join.path}
    {
      StepMember(db, rows, b, j);
    }
  }

  /** The NULL-extension promise: no row of the left side is lost. */
  lemma {:induction false} JoinAllExtends(
      db: Database, rows: seq<JoinedRow>, bs: seq<BoundJoin>, known: set<Path>, i: JoinedRow) returns (j: JoinedRow)
    requires AllFit(bs) && Ordered(bs, known) && Over(rows, known) && i in rows
    ensures j in JoinAll(db, rows, bs) && Agrees(i, j)
    decreases bs
  {
    if bs == [] {
      j := i;
    } else {
      var b := bs[0];
      ExtensionsMember(db, b, i, map[]);
      var next := i[b.join.path := Extensions(db, b, i)[0]];
      StepMember(db, rows, b, next);
      assert Extensions(db, b, i)[0] in Extensions(db, b, i);
      StepIsOver(db, rows, b, known);
      j := JoinAllExtends(db, Step(db, rows, b), bs[1..], known + {b.join.path}, next);
    }
  }

  /** Nothing is invented: every joined row stems from a row of the left side. */
  lemma {:induction false} JoinAllStems(
      db: Database, rows: seq<JoinedRow>, bs: seq<BoundJoin>, known: set<Path>, j: JoinedRow) returns (i: JoinedRow)
    requires AllFit(bs) && Ordered(bs, known) && Over(rows, known) && j in JoinAll(db, rows, bs)
    ensures i in rows && Agrees(i, j) && j.Keys == known + Paths(bs)
    decreases bs
  {
    if bs == [] {
      i := j;
    } else {
      var b := bs[0];
      StepIsOver(db, rows, b, known);
      var next := JoinAllStems(db, Step(db, rows, b), bs[1..], known + {b.join.path}, j);
      StepMember(db, rows, b, next);
      var k: JoinedRow, o: Option<Row> :| k in rows && o in Extensions(db, b, k) && next == k[b.join.path := o];
      i := k;
      assert forall x :: x in bs <==> x == b || x in bs[1..];
    }
  }

  /** The ON condition of one join, on the rows it puts side by side. */
  predicate OnHolds(db: Database, b: BoundJoin, parent: Row, child: Row)
    requires Fits(b)
  {
    child in RowsOf(db, b.join.table) &&
    KeysMeet(db, b.join.bridge, b.join.childColumn, Col(parent, b.join.parentColumn), child) &&
    Shows(db, b, map[], child)
  }

  /** The filter of a join looks at no other table. */
  ghost predicate Local(db: Database, b: BoundJoin)
    requires Fits(b)
  {
    forall j: JoinedRow, child: Row :: Shows(db, b, j, child) <==> Shows(db, b, map[], child)
  }

  lemma NullMeetsNothing(db: Database, bridge: Option<Bridge>, childColumn: string, child: Row)
    ensures !KeysMeet(db, bridge, childColumn, Null, child)
  {
  }

  /** A table that shows a row shows one its parent's row is joined with. */
  lemma {:induction false} JoinAllSound(
      db: Database, rows: seq<JoinedRow>, bs: seq<BoundJoin>, known: set<Path>, j: JoinedRow, k: nat)
    requires AllFit(bs) && Ordered(bs, known) && Over(rows, known) && j in JoinAll(db, rows, bs)
    requires k < |bs| && Local(db, bs[k])
    ensures bs[k].join.path in j && bs[k].join.parent in j
    ensures j[bs[k].join.path].Some? ==>
              j[bs[k].join.parent].Some? &&
              OnHolds(db, bs[k], j[bs[k].join.parent].value, j[bs[k].join.path].value)
    decreases bs
  {
    var b := bs[0];
    StepIsOver(db, rows, b, known);
    if k > 0 {
      JoinAllSound(db, Step(db, rows, b), bs[1..], known + {b.join.path}, j, k - 1);
    } else {
      var next := JoinAllStems(db, Step(db, rows, b), bs[1..], known + {b.join.path}, j);
      StepMember(db, rows, b, next);
      var i: JoinedRow, o: Option<Row> :| i in rows && o in Extensions(db, b, i) && next == i[b.join.path := o];
      if o.Some? {
        ExtensionsMember(db, b, i, o.value);
        if i[b.join.parent].None? {
          NullMeetsNothing(db, b.join.bridge, b.join.childColumn, o.value);
        }
      }
    }
  }

  /** Every row a parent's row is joined with is shown beside it in some joined row. */
  lemma {:induction false} JoinAllComplete(
      db: Database, rows: seq<JoinedRow>, bs: seq<BoundJoin>, known: set<Path>, j: JoinedRow, k: nat, child: Row)
    returns (r: JoinedRow)
    requires AllFit(bs) && Ordered(bs, known) && Over(rows, known) && j in JoinAll(db, rows, bs)
    requires k < |bs| && Local(db, bs[k])
    requires bs[k].join.parent in j && j[bs[k].join.parent].Some?
    requires OnHolds(db, bs[k], j[bs[k].join.parent].value, child)
    ensures r in JoinAll(db, rows, bs)
    ensures bs[k].join.parent in r && r[bs[k].join.parent] == j[bs[k].join.parent]
    ensures bs[k].join.path in r && r[bs[k].join.path] == Some(child)
    decreases bs
  {
    var b := bs[0];
    StepIsOver(db, rows, b, known);
    if k > 0 {
      r := JoinAllComplete(db, Step(db, rows, b), bs[1..], known + {b.join.path}, j, k - 1, child);
    } else {
      var i := JoinAllStems(db, rows, bs, known, j);
      ExtensionsMember(db, b, i, child);
      var next := i[b.join.path := Some(child)];
      StepMember(db, rows, b, next);
      r := JoinAllExtends(db, Step(db, rows, b), bs[1..], known + {b.join.path}, next);
    }
  }

  /** What is wanted of the tables to come: a row only beside a wanted row of its parent that it is related to. */
  ghost predicate Wanted(db: Database, bs: seq<BoundJoin>, want: Path -> Option<Row>)
    requires AllFit(bs)
  {
    forall b :: b in bs ==>
      Local(db, b) &&
      (want(b.join.path).Some? ==>
         want(b.join.parent).Some? && OnHolds(db, b, want(b.join.parent).value, want(b.join.path).value))
  }

  predicate Grants(j: JoinedRow, known: set<Path>, want: Path -> Option<Row>) {
    forall p :: p in known && want(p).Some? ==> p in j && j[p] == want(p)
  }

  /** One row for every wanted table at once, across all joins, is shown by some joined row. */
  lemma {:induction false} JoinAllRealizes(
      db: Database, rows: seq<JoinedRow>, bs: seq<BoundJoin>, known: set<Path>, i: JoinedRow,
      want: Path -> Option<Row>) returns (j: JoinedRow)
    requires AllFit(bs) && Ordered(bs, known) && Over(rows, known) && i in rows
    requires Wanted(db, bs, want) && Grants(i, known, want)
    ensures j in JoinAll(db, rows, bs) && Grants(j, known + Paths(bs), want)
    decreases bs
  {
    if bs == [] {
      j := i;
    } else {
      var b := bs[0];
      var next := NextWanted(db, rows, b, known, i, want);
      StepIsOver(db, rows, b, known);
      j := JoinAllRealizes(db, Step(db, rows, b), bs[1..], known + {b.join.path}, next, want);
      assert forall x :: x in bs <==> x == b || x in bs[1..];
      assert known + Paths(bs) == known + {b.join.path} + Paths(bs[1..]);
    }
  }

  lemma NextWanted(
      db: Database, rows: seq<JoinedRow>, b: BoundJoin, known: set<Path>, i: JoinedRow, want: Path -> Option<Row>)
    returns (next: JoinedRow)
    requires Fits(b) && Over(rows, known) && i in rows && b.join.path !in known && b.join.parent in known
    requires Wanted(db, [b], want) && Grants(i, known, want)
    ensures next in Step(db, rows, b) && Grants(next, known + {b.join.path}, want)
  {
    assert b in [b];
    var o: Option<Row> := want(b.join.path);
    if o.Some? {
      ExtensionsMember(db, b, i, o.value);
    } else {
      ExtensionsMember(db, b, i, map[]);
      o := Extensions(db, b, i)[0];
    }
    next := i[b.join.path := o];
    StepMember(db, rows, b, next);
    assert o in Extensions(db, b, i);
  }
}
