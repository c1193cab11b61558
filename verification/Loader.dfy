/**
 Rebuilding nested objects from the rows of a joined query: the loader as a function of the rows, with the
 object cache as an explicit store. References between objects are their cache keys.
 */
module Loader {
  import opened JavaInt
  import opened Truth
  import opened Names

  /** One row of the result set: the values by column label. */
  type ResultRow = map<string, Value>

  datatype LabelledColumn = LabelledColumn(columnLabel: string, name: string)

  /** One type of the result: where it hangs, its key column, its other columns and the types below it. */
  datatype RowObject = RowObject(
    path: string, parentField: string, key: LabelledColumn, values: seq<LabelledColumn>, children: seq<RowObject>)

  datatype Field = Scalar(v: Value) | Many(keys: seq<string>) | One(key: string)

  type Object = map<string, Field>

  datatype State = State(cache: map<string, Object>, roots: seq<string>)

  function Get(row: ResultRow, columnLabel: string): Value {
    if columnLabel in row then row[columnLabel] else Null
  }

  /** "path.keyField=keyValue" */
  function CacheKey(path: string, keyField: string, keyText: string): string {
    path + "." + keyField + "=" + keyText
  }

  /** The cache key of the object of this type on this row; none when its primary key is NULL. */
  function KeyOf(r: RowObject, row: ResultRow): Option<string> {
    match Get(row, r.key.columnLabel)
    case Null => None
    case Val(text) => Some(CacheKey(r.path, r.key.name, text))
  }

  // ---------------------------------------------------------------- a set ordered by hash code

  /** java.lang.String.hashCode */
  function JavaHash(s: string): int {
    if s == "" then 0 else Wrap(31 * JavaHash(s[..|s| - 1]) + s[|s| - 1] as int)
  }

  /** TreeSet.add with hash codes as the only order: an element of equal hash is already "there". */
  function TreeAdd(keys: seq<string>, k: string): seq<string> {
    if keys == [] then [k]
    else if JavaHash(k) == JavaHash(keys[0]) then keys
    else if JavaHash(k) < JavaHash(keys[0]) then [k] + keys
    else [keys[0]] + TreeAdd(keys[1..], k)
  }

  // ---------------------------------------------------------------- one row

  /** A value is taken from the row when the object has none yet, or NULL. */
  function Fill(o: Object, values: seq<LabelledColumn>, row: ResultRow): Object
    decreases values
  {
    if values == [] then o
    else
      var c := values[0];
      var o' := if c.name !in o || o[c.name] == Scalar(Null) then o[c.name := Scalar(Get(row, c.columnLabel))] else o;
      Fill(o', values[1..], row)
  }

  function KeysIn(o: Object, field: string): seq<string> {
    if field in o && o[field].Many? then o[field].keys else []
  }

  /** The child of one row is hung under its field: added to the set, or put in place of the previous one. */
  function Link(o: Object, child: RowObject, childKey: Option<string>, many: set<string>): Object {
    var o' := if child.parentField !in o && child.path in many then o[child.parentField := Many([])] else o;
    if childKey.None? then o'
    else if child.path in many then
      o'[child.parentField := Many(TreeAdd(KeysIn(o', child.parentField), childKey.value))]
    else o'[child.parentField := One(childKey.value)]
  }

  function NewObject(r: RowObject, row: ResultRow): Object {
    map[r.key.name := Scalar(Get(row, r.key.columnLabel))]
  }

  /** The object of the row is found or made (a new root joins the result list) and takes the row's values. */
  function Opened(r: RowObject, k: string, row: ResultRow, st: State, isRoot: bool): State {
    var o := if k in st.cache then st.cache[k] else NewObject(r, row);
    State(st.cache[k := Fill(o, r.values, row)], if isRoot && k !in st.cache then st.roots + [k] else st.roots)
  }

  function ParseTree(r: RowObject, row: ResultRow, st: State, isRoot: bool, many: set<string>): State
    decreases r, 1
  {
    var key := KeyOf(r, row);
    if key.None? then st
    else ParseChildren(key.value, r.children, row, Opened(r, key.value, row, st, isRoot), many)
  }

  function ParseChildren(k: string, children: seq<RowObject>, row: ResultRow, st: State, many: set<string>): State
    decreases children, 0
  {
    if children == [] then st
    else
      var st1 := ParseTree(children[0], row, st, false, many);
      var o := if k in st1.cache then st1.cache[k] else map[];
      var st2 := st1.(cache := st1.cache[k := Link(o, children[0], KeyOf(children[0], row), many)]);
      ParseChildren(k, children[1..], row, st2, many)
  }

  /** The state after all rows, the last one last. */
  function ParseRows(r: RowObject, rows: seq<ResultRow>, many: set<string>): State {
    if rows == [] then State(map[], [])
    else ParseTree(r, rows[|rows| - 1], ParseRows(r, rows[..|rows| - 1], many), true, many)
  }

  // ---------------------------------------------------------------- cache keys are injective

  /** A path has no '=', a key field neither '=' nor '.'. */
  predicate Plain(path: string, keyField: string) {
    '=' !in path && '=' !in keyField && '.' !in keyField
  }

  /** Two objects share a cache key iff they have the same path, key field and key. */
  lemma CacheKeyIsInjective(p: string, f: string, t: string, p': string, f': string, t': string)
    requires Plain(p, f) && Plain(p', f')
    ensures CacheKey(p, f, t) == CacheKey(p', f', t') <==> p == p' && f == f' && t == t'
  {
    if CacheKey(p, f, t) == CacheKey(p', f', t') {
      assert CacheKey(p, f, t) == (p + "." + f) + ['='] + t;
      assert CacheKey(p', f', t') == (p' + "." + f') + ['='] + t';
      SplitsFirst(p + "." + f, '=', t);
      SplitsFirst(p' + "." + f', '=', t');
      SplitsLast(p, '.', f);
      SplitsLast(p', '.', f');
    }
  }

  // ---------------------------------------------------------------- the objects one row touches

  /** The types of the row whose primary keys are not NULL from the root down, by cache key. */
  function Visited(r: RowObject, row: ResultRow): map<string, RowObject>
    decreases r, 1
  {
    var key := KeyOf(r, row);
    if key.None? then map[] else VisitedAll(r.children, row)[key.value := r]
  }

  function VisitedAll(rs: seq<RowObject>, row: ResultRow): map<string, RowObject>
    decreases rs, 0
  {
    if rs == [] then map[] else Visited(rs[0], row) + VisitedAll(rs[1..], row)
  }

  function LinkAll(o: Object, children: seq<RowObject>, row: ResultRow, many: set<string>): Object
    decreases children
  {
    if children == [] then o
    else LinkAll(Link(o, children[0], KeyOf(children[0], row), many), children[1..], row, many)
  }

  /** What one row does to the one object of a type it visits. */
  function Touch(r: RowObject, row: ResultRow, before: Option<Object>, many: set<string>): Object {
    LinkAll(Fill(if before.Some? then before.value else NewObject(r, row), r.values, row), r.children, row, many)
  }

  function Lookup(cache: map<string, Object>, k: string): Option<Object> {
    if k in cache then Some(cache[k]) else None
  }

  /** What one row makes of the object of a key, given the types it visits. */
  function After(visited: map<string, RowObject>, row: ResultRow, many: set<string>, k: string, before: Option<Object>)
    : Option<Object>
  {
    if k in visited then Some(Touch(visited[k], row, before, many)) else before
  }

  // Every path of a tree, and trees in which no path occurs twice.
  function PathsOf(r: RowObject): set<string> {
    {r.path} + PathsOfAll(r.children)
  }

  function PathsOfAll(rs: seq<RowObject>): set<string> {
    if rs == [] then {} else PathsOf(rs[0]) + PathsOfAll(rs[1..])
  }

  predicate Clean(r: RowObject) {
    Plain(r.path, r.key.name) && r.path !in PathsOfAll(r.children) && CleanAll(r.children)
  }

  predicate CleanAll(rs: seq<RowObject>) {
    rs == [] || (Clean(rs[0]) && CleanAll(rs[1..]) && PathsOf(rs[0]) !! PathsOfAll(rs[1..]))
  }

  /** A visited key names its type: the type is of the tree, clean, and this is its key on the row. */
  lemma {:induction false} VisitedNames(r: RowObject, row: ResultRow, k: string)
    requires Clean(r) && k in Visited(r, row)
    ensures var n := Visited(r, row)[k];
            n.path in PathsOf(r) && Plain(n.path, n.key.name) && KeyOf(n, row) == Some(k)
    decreases r, 1
  {
    if KeyOf(r, row) != Some(k) {
      VisitedAllNames(r.children, row, k);
    }
  }

  lemma {:induction false} VisitedAllNames(rs: seq<RowObject>, row: ResultRow, k: string)
    requires CleanAll(rs) && k in VisitedAll(rs, row)
    ensures var n := VisitedAll(rs, row)[k];
            n.path in PathsOfAll(rs) && Plain(n.path, n.key.name) && KeyOf(n, row) == Some(k)
    decreases rs, 0
  {
    if k in VisitedAll(rs[1..], row) {
      VisitedAllNames(rs[1..], row, k);
    } else {
      VisitedNames(rs[0], row, k);
    }
  }

  lemma SameKeySamePath(n: RowObject, row: ResultRow, n': RowObject, row': ResultRow)
    requires Plain(n.path, n.key.name) && Plain(n'.path, n'.key.name)
    requires KeyOf(n, row).Some? && KeyOf(n, row) == KeyOf(n', row')
    ensures n.path == n'.path && n.key.name == n'.key.name &&
            Get(row, n.key.columnLabel) == Get(row', n'.key.columnLabel)
  {
    CacheKeyIsInjective(n.path, n.key.name, Get(row, n.key.columnLabel).text,
                        n'.path, n'.key.name, Get(row', n'.key.columnLabel).text);
  }

  /** Types with different paths never share a cache key. */
  lemma VisitedApart(a: RowObject, rs: seq<RowObject>, row: ResultRow)
    requires Clean(a) && CleanAll(rs) && PathsOf(a) !! PathsOfAll(rs)
    ensures Visited(a, row).Keys !! VisitedAll(rs, row).Keys
  {
    forall k | k in Visited(a, row) && k in VisitedAll(rs, row)
      ensures false
    {
      VisitedNames(a, row, k);
      VisitedAllNames(rs, row, k);
      SameKeySamePath(Visited(a, row)[k], row, VisitedAll(rs, row)[k], row);
    }
  }

  lemma OwnKeyApart(r: RowObject, row: ResultRow)
    requires Clean(r) && KeyOf(r, row).Some?
    ensures KeyOf(r, row).value !in VisitedAll(r.children, row)
  {
    var k := KeyOf(r, row).value;
    if k in VisitedAll(r.children, row) {
      VisitedAllNames(r.children, row, k);
      SameKeySamePath(r, row, VisitedAll(r.children, row)[k], row);
    }
  }

  /**
   One row in closed form: the recursive descent with its shared cache updates every visited object once, as if
   each were alone, and touches nothing else. A root seen for the first time joins the result list.
   */
  lemma {:induction false} ParseTreeTouches(
      r: RowObject, row: ResultRow, st: State, isRoot: bool, many: set<string>, c: string)
    requires Clean(r)
    ensures Lookup(ParseTree(r, row, st, isRoot, many).cache, c) ==
              After(Visited(r, row), row, many, c, Lookup(st.cache, c))
    ensures ParseTree(r, row, st, isRoot, many).roots ==
              if isRoot && KeyOf(r, row).Some? && KeyOf(r, row).value !in st.cache
              then st.roots + [KeyOf(r, row).value] else st.roots
    decreases r, 1
  {
    if KeyOf(r, row).Some? {
      var k := KeyOf(r, row).value;
      OwnKeyApart(r, row);
      ParseChildrenTouches(k, r.children, row, Opened(r, k, row, st, isRoot), many, c);
    }
  }

  lemma {:induction false} ParseChildrenTouches(
      k: string, rs: seq<RowObject>, row: ResultRow, st: State, many: set<string>, c: string)
    requires CleanAll(rs) && k in st.cache && k !in VisitedAll(rs, row)
    ensures ParseChildren(k, rs, row, st, many).roots == st.roots
    ensures Lookup(ParseChildren(k, rs, row, st, many).cache, c) ==
              if c == k then Some(LinkAll(st.cache[k], rs, row, many))
              else After(VisitedAll(rs, row), row, many, c, Lookup(st.cache, c))
    decreases rs, 0
  {
    if rs != [] {
      var r := rs[0];
      ParseTreeTouches(r, row, st, false, many, c);
      ParseTreeTouches(r, row, st, false, many, k);
      VisitedApart(r, rs[1..], row);
      var st1 := ParseTree(r, row, st, false, many);
      assert st1.cache[k] == st.cache[k];
      var st2 := st1.(cache := st1.cache[k := Link(st.cache[k], r, KeyOf(r, row), many)]);
      ParseChildrenTouches(k, rs[1..], row, st2, many, c);
    }
  }
}
