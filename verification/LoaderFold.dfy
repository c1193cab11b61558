/** What the loader's state is after any prefix of rows, object by object. */
module LoaderFold {
  import opened Truth
  import opened Loader

  // ---------------------------------------------------------------- the rows that concern one object

  /** The rows on which this key is visited, in order. */
  function History(root: RowObject, rows: seq<ResultRow>, k: string): (r: seq<ResultRow>)
    ensures forall row :: row in r <==> row in rows && k in Visited(root, row)
    ensures r != [] ==> r[0] in rows && k in Visited(root, r[0])
  {
    if rows == [] then []
    else
      var last := rows[|rows| - 1];
      assert forall row :: row in rows <==> row in rows[..|rows| - 1] || row == last;
      History(root, rows[..|rows| - 1], k) + if k in Visited(root, last) then [last] else []
  }

  function TouchAll(n: RowObject, rows: seq<ResultRow>, many: set<string>): Option<Object> {
    if rows == [] then None
    else Some(Touch(n, rows[|rows| - 1], TouchAll(n, rows[..|rows| - 1], many), many))
  }

  /** A key belongs to one type, whatever the row. */
  lemma {:induction false} OneTypePerKey(r: RowObject, row: ResultRow, row': ResultRow, k: string)
    requires Clean(r) && k in Visited(r, row) && k in Visited(r, row')
    ensures Visited(r, row)[k] == Visited(r, row')[k]
    decreases r, 1
  {
    if KeyOf(r, row) == Some(k) {
      RootKeyIsRoot(r, row, row', k);
    } else if KeyOf(r, row') == Some(k) {
      RootKeyIsRoot(r, row', row, k);
    } else {
      OneTypePerKeyAll(r.children, row, row', k);
    }
  }

  lemma RootKeyIsRoot(r: RowObject, row: ResultRow, row': ResultRow, k: string)
    requires Clean(r) && KeyOf(r, row) == Some(k) && k in Visited(r, row')
    ensures KeyOf(r, row') == Some(k)
  {
    if KeyOf(r, row') != Some(k) {
      VisitedAllNames(r.children, row', k);
      SameKeySamePath(r, row, VisitedAll(r.children, row')[k], row');
    }
  }

  lemma {:induction false} OneTypePerKeyAll(rs: seq<RowObject>, row: ResultRow, row': ResultRow, k: string)
    requires CleanAll(rs) && k in VisitedAll(rs, row) && k in VisitedAll(rs, row')
    ensures VisitedAll(rs, row)[k] == VisitedAll(rs, row')[k]
    decreases rs, 0
  {
    if k in VisitedAll(rs[1..], row) && k in VisitedAll(rs[1..], row') {
      OneTypePerKeyAll(rs[1..], row, row', k);
    } else if k in VisitedAll(rs[1..], row) {
      HeadOrTail(rs, row', row, k);
    } else if k in VisitedAll(rs[1..], row') {
      HeadOrTail(rs, row, row', k);
    } else {
      OneTypePerKey(rs[0], row, row', k);
    }
  }

  lemma HeadOrTail(rs: seq<RowObject>, row: ResultRow, row': ResultRow, k: string)
    requires rs != [] && CleanAll(rs)
    ensures !(k in Visited(rs[0], row) && k in VisitedAll(rs[1..], row'))
  {
    if k in Visited(rs[0], row) && k in VisitedAll(rs[1..], row') {
      VisitedNames(rs[0], row, k);
      VisitedAllNames(rs[1..], row', k);
      SameKeySamePath(Visited(rs[0], row)[k], row, VisitedAll(rs[1..], row')[k], row');
    }
  }

  /**
   The loader fold: the cached object of a key is what its own rows make of it, one after the other; a key that
   no row visits has no object.
   */
  lemma {:induction false} CachedObject(
      root: RowObject, rows: seq<ResultRow>, many: set<string>, k: string, n: RowObject)
    requires Clean(root)
    requires forall row :: row in rows && k in Visited(root, row) ==> Visited(root, row)[k] == n
    ensures Lookup(ParseRows(root, rows, many).cache, k) == TouchAll(n, History(root, rows, k), many)
    decreases rows
  {
    if rows != [] {
      var init, last := rows[..|rows| - 1], rows[|rows| - 1];
      assert rows == init + [last];
      CachedObject(root, init, many, k, n);
      ParseTreeTouches(root, last, ParseRows(root, init, many), true, many, k);
      if k in Visited(root, last) {
        var h := History(root, rows, k);
        assert h[..|h| - 1] == History(root, init, k) && h[|h| - 1] == last;
      } else {
        assert History(root, rows, k) == History(root, init, k);
      }
    }
  }

  /** The cache holds exactly the keys some row visits. */
  lemma CachedKeys(root: RowObject, rows: seq<ResultRow>, many: set<string>, k: string)
    requires Clean(root)
    ensures k in ParseRows(root, rows, many).cache <==> exists row :: row in rows && k in Visited(root, row)
  {
    if row :| row in rows && k in Visited(root, row) {
      var n := Visited(root, row)[k];
      forall row' | row' in rows && k in Visited(root, row')
        ensures Visited(root, row')[k] == n
      {
        OneTypePerKey(root, row', row, k);
      }
      CachedObject(root, rows, many, k, n);
      assert row in History(root, rows, k);
    } else {
      CachedObject(root, rows, many, k, root);
    }
  }

  /** The root keys of the rows, each where it first appears. */
  function RootKeys(root: RowObject, rows: seq<ResultRow>): (r: seq<string>)
    ensures forall k :: k in r <==> exists row :: row in rows && KeyOf(root, row) == Some(k)
  {
    if rows == [] then []
    else
      var init, last := rows[..|rows| - 1], rows[|rows| - 1];
      assert forall row :: row in rows <==> row in init || row == last;
      var before := RootKeys(root, init);
      if KeyOf(root, last).Some? && KeyOf(root, last).value !in before then before + [KeyOf(root, last).value]
      else before
  }

  /** The result list holds the root objects in the order of their first rows. */
  lemma {:induction false} ResultList(root: RowObject, rows: seq<ResultRow>, many: set<string>)
    requires Clean(root)
    ensures ParseRows(root, rows, many).roots == RootKeys(root, rows)
    decreases rows
  {
    if rows != [] {
      var init, last := rows[..|rows| - 1], rows[|rows| - 1];
      var st := ParseRows(root, init, many);
      ResultList(root, init, many);
      ParseTreeTouches(root, last, st, true, many, "");
      if KeyOf(root, last).Some? {
        var k := KeyOf(root, last).value;
        CachedKeys(root, init, many, k);
        forall row | row in init && k in Visited(root, row)
          ensures KeyOf(root, row) == Some(k)
        {
          RootKeyIsRoot(root, last, row, k);
        }
        forall row | row in init && KeyOf(root, row) == Some(k)
          ensures k in Visited(root, row)
        {
        }
      }
    }
  }

  // ---------------------------------------------------------------- field by field

  function NamesOf(values: seq<LabelledColumn>): set<string> {
    set c | c in values :: c.name
  }

  function FieldsOf(children: seq<RowObject>): set<string> {
    set c | c in children :: c.parentField
  }

  predicate DistinctNames(values: seq<LabelledColumn>) {
    forall i, j :: 0 <= i < j < |values| ==> values[i].name != values[j].name
  }

  predicate DistinctChildren(children: seq<RowObject>) {
    forall i, j :: 0 <= i < j < |children| ==> children[i].parentField != children[j].parentField
  }

  /** The key, the other columns and the children of a type all have different names. */
  predicate Apart(n: RowObject) {
    DistinctNames(n.values) && DistinctChildren(n.children) &&
    n.key.name !in NamesOf(n.values) && n.key.name !in FieldsOf(n.children) &&
    NamesOf(n.values) !! FieldsOf(n.children)
  }

  function FillField(before: Option<Field>, v: Value): Option<Field> {
    if before.None? || before.value == Scalar(Null) then Some(Scalar(v)) else before
  }

  function FieldAt(o: Object, f: string): Option<Field> {
    if f in o then Some(o[f]) else None
  }

  lemma {:induction false} FillMisses(o: Object, values: seq<LabelledColumn>, row: ResultRow, f: string)
    requires f !in NamesOf(values)
    ensures FieldAt(Fill(o, values, row), f) == FieldAt(o, f)
    decreases values
  {
    if values != [] {
      var c := values[0];
      assert c in values;
      var o' := if c.name !in o || o[c.name] == Scalar(Null) then o[c.name := Scalar(Get(row, c.columnLabel))] else o;
      FillMisses(o', values[1..], row, f);
    }
  }

  lemma {:induction false} FillHits(o: Object, values: seq<LabelledColumn>, row: ResultRow, c: LabelledColumn)
    requires DistinctNames(values) && c in values
    ensures FieldAt(Fill(o, values, row), c.name) == FillField(FieldAt(o, c.name), Get(row, c.columnLabel))
    decreases values
  {
    var d := values[0];
    var o' := if d.name !in o || o[d.name] == Scalar(Null) then o[d.name := Scalar(Get(row, d.columnLabel))] else o;
    if c == d {
      FillMisses(o', values[1..], row, c.name);
    } else {
      FillHits(o', values[1..], row, c);
      assert c.name != d.name;
    }
  }

  function LinkField(before: Option<Field>, childKey: Option<string>, isMany: bool): Option<Field> {
    var here := if before.None? && isMany then Some(Many([])) else before;
    if childKey.None? then here
    else if isMany then
      var keys := if here.value.Many? then here.value.keys else [];
      Some(Many(TreeAdd(keys, childKey.value)))
    else Some(One(childKey.value))
  }

  lemma {:induction false} LinkAllMisses(
      o: Object, children: seq<RowObject>, row: ResultRow, many: set<string>, f: string)
    requires f !in FieldsOf(children)
    ensures FieldAt(LinkAll(o, children, row, many), f) == FieldAt(o, f)
    decreases children
  {
    if children != [] {
      var c := children[0];
      assert c in children;
      LinkAllMisses(Link(o, c, KeyOf(c, row), many), children[1..], row, many, f);
    }
  }

  lemma {:induction false} LinkAllHits(
      o: Object, children: seq<RowObject>, row: ResultRow, many: set<string>, c: RowObject)
    requires DistinctChildren(children) && c in children
    ensures FieldAt(LinkAll(o, children, row, many), c.parentField) ==
              LinkField(FieldAt(o, c.parentField), KeyOf(c, row), c.path in many)
    decreases children
  {
    var d := children[0];
    var o' := Link(o, d, KeyOf(d, row), many);
    if c == d {
      LinkAllMisses(o', children[1..], row, many, c.parentField);
    } else {
      LinkAllHits(o', children[1..], row, many, c);
      assert c.parentField != d.parentField;
    }
  }

  // The field of a column, and the field of a child, after a list of rows.
  function ColumnField(c: LabelledColumn, rows: seq<ResultRow>): Option<Field> {
    if rows == [] then None
    else FillField(ColumnField(c, rows[..|rows| - 1]), Get(rows[|rows| - 1], c.columnLabel))
  }

  function ChildField(c: RowObject, rows: seq<ResultRow>, isMany: bool): Option<Field> {
    if rows == [] then None
    else LinkField(ChildField(c, rows[..|rows| - 1], isMany), KeyOf(c, rows[|rows| - 1]), isMany)
  }

  function Flat(o: Option<Object>, f: string): Option<Field> {
    if o.None? then None else FieldAt(o.value, f)
  }

  /** Each field of an object develops on its own. */
  lemma {:induction false} FieldsAfter(n: RowObject, rows: seq<ResultRow>, many: set<string>, f: string)
    requires Apart(n) && rows != []
    ensures TouchAll(n, rows, many).Some?
    ensures var field := Flat(TouchAll(n, rows, many), f);
            (f == n.key.name ==> field == Some(Scalar(Get(rows[0], n.key.columnLabel)))) &&
            (forall c :: c in n.values && c.name == f ==> field == ColumnField(c, rows)) &&
            (forall c :: c in n.children && c.parentField == f ==> field == ChildField(c, rows, c.path in many)) &&
            (f != n.key.name && f !in NamesOf(n.values) && f !in FieldsOf(n.children) ==> field == None)
    decreases rows
  {
    var init, last := rows[..|rows| - 1], rows[|rows| - 1];
    var before := TouchAll(n, init, many);
    if init != [] {
      FieldsAfter(n, init, many, f);
    }
    var start := if before.Some? then before.value else NewObject(n, last);
    var filled := Fill(start, n.values, last);
    forall c | c in n.values && c.name == f
      ensures FieldAt(LinkAll(filled, n.children, last, many), f) == ColumnField(c, rows)
    {
      FillHits(start, n.values, last, c);
      LinkAllMisses(filled, n.children, last, many, f);
    }
    forall c | c in n.children && c.parentField == f
      ensures FieldAt(LinkAll(filled, n.children, last, many), f) == ChildField(c, rows, c.path in many)
    {
      FillMisses(start, n.values, last, f);
      LinkAllHits(filled, n.children, last, many, c);
    }
    if f !in NamesOf(n.values) && f !in FieldsOf(n.children) {
      FillMisses(start, n.values, last, f);
      LinkAllMisses(filled, n.children, last, many, f);
    }
  }
}
