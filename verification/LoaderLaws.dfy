/**
 What the loader keeps and what it can lose: has-many sets and hash codes, and why neither the order nor the
 repetition of rows matters.
 */
module LoaderLaws {
  import opened JavaInt
  import opened Truth
  import opened Loader
  import opened LoaderFold

  // ---------------------------------------------------------------- has-many sets

  predicate Ascending(keys: seq<string>) {
    forall i, j :: 0 <= i < j < |keys| ==> JavaHash(keys[i]) < JavaHash(keys[j])
  }

  predicate NoCollision(keys: set<string>) {
    forall a, b :: a in keys && b in keys && JavaHash(a) == JavaHash(b) ==> a == b
  }

  function Elements(keys: seq<string>): set<string> {
    set k | k in keys
  }

  predicate HasHash(keys: seq<string>, h: int) {
    exists k :: k in keys && JavaHash(k) == h
  }

  /** Adding loses nothing that is there, and adds the key or finds one of its hash code. */
  lemma {:induction false} TreeAddMembers(keys: seq<string>, k: string)
    ensures var r := TreeAdd(keys, k);
            Elements(keys) <= Elements(r) <= Elements(keys) + {k} && HasHash(r, JavaHash(k))
    decreases |keys|
  {
    var h := JavaHash(k);
    if keys == [] || h < JavaHash(keys[0]) {
      assert TreeAdd(keys, k) == [k] + keys;
      assert k in TreeAdd(keys, k);
    } else if h == JavaHash(keys[0]) {
      assert keys[0] in keys;
    } else {
      TreeAddMembers(keys[1..], k);
      var rest := TreeAdd(keys[1..], k);
      assert TreeAdd(keys, k) == [keys[0]] + rest && keys == [keys[0]] + keys[1..];
      var m :| m in rest && JavaHash(m) == h;
      assert m in TreeAdd(keys, k);
      assert forall x :: x in keys <==> x == keys[0] || x in Elements(keys[1..]);
      assert forall x :: x in TreeAdd(keys, k) <==> x == keys[0] || x in Elements(rest);
    }
  }

  lemma {:induction false} TreeAddAscends(keys: seq<string>, k: string)
    requires Ascending(keys)
    ensures Ascending(TreeAdd(keys, k))
    decreases |keys|
  {
    if keys != [] && JavaHash(keys[0]) < JavaHash(k) {
      TreeAddAscends(keys[1..], k);
      TreeAddMembers(keys[1..], k);
      var rest := TreeAdd(keys[1..], k);
      forall j | 0 <= j < |rest|
        ensures JavaHash(keys[0]) < JavaHash(rest[j])
      {
        assert rest[j] in Elements(rest);
      }
      ConsAscends(keys[0], rest);
    } else if keys != [] && JavaHash(k) < JavaHash(keys[0]) {
      ConsAscends(k, keys);
    }
  }

  lemma ConsAscends(k: string, keys: seq<string>)
    requires Ascending(keys) && forall j :: 0 <= j < |keys| ==> JavaHash(k) < JavaHash(keys[j])
    ensures Ascending([k] + keys)
  {
  }

  function KeysSeen(c: RowObject, rows: seq<ResultRow>): set<string> {
    set row | row in rows && KeyOf(c, row).Some? :: KeyOf(c, row).value
  }

  lemma SeenSnoc(c: RowObject, rows: seq<ResultRow>)
    requires rows != []
    ensures var init, last := rows[..|rows| - 1], rows[|rows| - 1];
            KeysSeen(c, rows) == KeysSeen(c, init) + if KeyOf(c, last).Some? then {KeyOf(c, last).value} else {}
  {
    var init, last := rows[..|rows| - 1], rows[|rows| - 1];
    assert forall row :: row in rows <==> row in init || row == last;
  }

  lemma {:induction false} ManyField(c: RowObject, rows: seq<ResultRow>)
    requires rows != []
    ensures var field := ChildField(c, rows, true);
            field.Some? && field.value.Many? && Ascending(field.value.keys) &&
            Elements(field.value.keys) <= KeysSeen(c, rows) &&
            forall k :: k in KeysSeen(c, rows) ==> HasHash(field.value.keys, JavaHash(k))
    decreases rows
  {
    var init, last := rows[..|rows| - 1], rows[|rows| - 1];
    SeenSnoc(c, rows);
    var before := [];
    if init != [] {
      ManyField(c, init);
      before := ChildField(c, init, true).value.keys;
    }
    if KeyOf(c, last).Some? {
      var k := KeyOf(c, last).value;
      TreeAddMembers(before, k);
      TreeAddAscends(before, k);
      forall m | HasHash(before, JavaHash(m))
        ensures HasHash(TreeAdd(before, k), JavaHash(m))
      {
        var x :| x in before && JavaHash(x) == JavaHash(m);
        assert x in Elements(TreeAdd(before, k));
      }
    }
  }

  lemma AscendingHasNoCollision(keys: seq<string>)
    requires Ascending(keys)
    ensures NoCollision(Elements(keys))
  {
  }

  /** A has-many field holds every child its rows link iff no two of their cache keys share a hash code. */
  lemma HasManyIsCompleteIffNoCollision(c: RowObject, rows: seq<ResultRow>)
    requires rows != []
    ensures var field := ChildField(c, rows, true);
            field.Some? && field.value.Many? &&
            (Elements(field.value.keys) == KeysSeen(c, rows) <==> NoCollision(KeysSeen(c, rows)))
  {
    ManyField(c, rows);
    var keys := ChildField(c, rows, true).value.keys;
    if NoCollision(KeysSeen(c, rows)) {
      forall k | k in KeysSeen(c, rows)
        ensures k in Elements(keys)
      {
        var x :| x in keys && JavaHash(x) == JavaHash(k);
        assert x in Elements(keys);
      }
    } else {
      var a, b :| a in KeysSeen(c, rows) && b in KeysSeen(c, rows) && JavaHash(a) == JavaHash(b) && a != b;
      AscendingHasNoCollision(keys);
      assert !(a in Elements(keys) && b in Elements(keys));
    }
  }

  lemma HashSnoc(s: string, c: char)
    ensures JavaHash(s + [c]) == Wrap(31 * JavaHash(s) + c as int)
  {
    assert (s + [c])[..|s|] == s;
  }

  /** s[0] * 31^(n - 1) + s[1] * 31^(n - 2) + ... + s[n - 1] */
  function HashSum(s: string): int {
    if s == "" then 0 else s[0] as int * Power31(|s| - 1) + HashSum(s[1..])
  }

  function Power31(k: nat): nat {
    if k == 0 then 1 else 31 * Power31(k - 1)
  }

  lemma {:induction false} HashSumSnoc(s: string, c: char)
    ensures HashSum(s + [c]) == 31 * HashSum(s) + c as int
    decreases s
  {
    if s == "" {
      assert (s + [c])[1..] == "";
      assert Power31(0) == 1;
    } else {
      assert (s + [c])[1..] == s[1..] + [c];
      HashSumSnoc(s[1..], c);
      Moves(s[0] as int, Power31(|s| - 1));
    }
  }

  lemma Moves(a: int, p: int)
    ensures a * (31 * p) == 31 * (a * p)
  {
  }

  /** A hash code is the sum that the Java language documents, in 32 bits. */
  lemma {:induction false} HashIs(s: string)
    ensures JavaHash(s) == Wrap(HashSum(s))
    decreases s
  {
    if s != "" {
      var init, last := s[..|s| - 1], s[|s| - 1];
      assert s == init + [last];
      HashIs(init);
      HashSumSnoc(init, last);
      WrapScales(HashSum(init), last as int);
    }
  }

  /** Two more characters change the hash code as they would without wrapping in between. */
  lemma HashOfTwo(p: string, c: char, d: char) returns (x: int)
    ensures x == 31 * JavaHash(p) + c as int && JavaHash(p + [c] + [d]) == Wrap(31 * x + d as int)
  {
    x := 31 * JavaHash(p) + c as int;
    var h := JavaHash(p + [c]);
    HashSnoc(p, c);
    HashSnoc(p + [c], d);
    WrapScales(x, d as int);
    assert 31 * h + d as int == 31 * Wrap(x) + d as int;
  }

  /** Keys that end in "Aa" and "BB" collide behind any prefix. */
  lemma AaCollidesWithBB(p: string)
    ensures JavaHash(p + "Aa") == JavaHash(p + "BB")
  {
    var x := HashOfTwo(p, 'A', 'a');
    var y := HashOfTwo(p, 'B', 'B');
    assert p + ['A'] + ['a'] == p + "Aa" && p + ['B'] + ['B'] == p + "BB";
  }

  /** The concrete loss: of two orders keyed "Aa" and "BB" only the first one stays. */
  lemma CollidingChildIsLost(c: RowObject, first: ResultRow, second: ResultRow)
    requires Get(first, c.key.columnLabel) == Val("Aa") && Get(second, c.key.columnLabel) == Val("BB")
    ensures ChildField(c, [first, second], true) == Some(Many([CacheKey(c.path, c.key.name, "Aa")]))
    ensures KeysSeen(c, [first, second]) ==
              {CacheKey(c.path, c.key.name, "Aa"), CacheKey(c.path, c.key.name, "BB")}
  {
    var prefix := c.path + "." + c.key.name + "=";
    AaCollidesWithBB(prefix);
    assert [first, second][..1] == [first];
    assert [first][..0] == [];
    assert ChildField(c, [first], true) == Some(Many([prefix + "Aa"]));
  }

  // ---------------------------------------------------------------- to-one fields and columns

  lemma {:induction false} OneField(c: RowObject, rows: seq<ResultRow>)
    ensures match ChildField(c, rows, false)
            case None => KeysSeen(c, rows) == {}
            case Some(field) => field.One? && field.key in KeysSeen(c, rows)
    decreases rows
  {
    if rows != [] {
      OneField(c, rows[..|rows| - 1]);
      SeenSnoc(c, rows);
    }
  }

  lemma {:induction false} AgreedColumn(c: LabelledColumn, rows: seq<ResultRow>, v: Value)
    requires rows != [] && forall row :: row in rows ==> Get(row, c.columnLabel) == v
    ensures ColumnField(c, rows) == Some(Scalar(v))
    decreases rows
  {
    assert rows[|rows| - 1] in rows;
    if |rows| > 1 {
      AgreedColumn(c, rows[..|rows| - 1], v);
    }
  }

  // ---------------------------------------------------------------- order and repetition of rows

  /** No type of the tree has two fields of one name. */
  predicate AllApart(r: RowObject) {
    Apart(r) && forall c :: c in r.children ==> AllApart(c)
  }

  lemma {:induction false} VisitedIsApart(r: RowObject, row: ResultRow, k: string)
    requires AllApart(r) && k in Visited(r, row)
    ensures AllApart(Visited(r, row)[k])
    decreases r, 1
  {
    if KeyOf(r, row) != Some(k) {
      VisitedAllIsApart(r.children, row, k);
    }
  }

  lemma {:induction false} VisitedAllIsApart(rs: seq<RowObject>, row: ResultRow, k: string)
    requires (forall r :: r in rs ==> AllApart(r)) && k in VisitedAll(rs, row)
    ensures AllApart(VisitedAll(rs, row)[k])
    decreases rs, 0
  {
    if k in VisitedAll(rs[1..], row) {
      VisitedAllIsApart(rs[1..], row, k);
    } else {
      assert rs[0] in rs;
      VisitedIsApart(rs[0], row, k);
    }
  }

  /** The rows agree on what a key stands for: its columns and its to-one children. */
  predicate Agree(root: RowObject, rows: seq<ResultRow>, many: set<string>) {
    forall row, row', k | row in rows && row' in rows && k in Visited(root, row) && k in Visited(root, row') ::
      var n := Visited(root, row)[k];
      (forall c :: c in n.values ==> Get(row, c.columnLabel) == Get(row', c.columnLabel)) &&
      (forall c :: c in n.children && c.path !in many && KeyOf(c, row).Some? && KeyOf(c, row').Some? ==>
         KeyOf(c, row) == KeyOf(c, row'))
  }

  lemma {:induction false} AscendingIsUnique(a: seq<string>, b: seq<string>)
    requires Ascending(a) && Ascending(b) && Elements(a) == Elements(b)
    ensures a == b
    decreases |a|
  {
    assert b != [] ==> b[0] in Elements(b);
    if a != [] {
      assert a[0] in Elements(b);
      var j :| 0 <= j < |b| && b[j] == a[0];
      assert b[0] in Elements(a);
      var i :| 0 <= i < |a| && a[i] == b[0];
      assert i == 0 && j == 0;
      forall k
        ensures k in Elements(a[1..]) <==> k in Elements(b[1..])
      {
        assert k in a <==> k == a[0] || k in a[1..];
        assert k in b <==> k == b[0] || k in b[1..];
        assert forall m :: 0 < m < |a| ==> a[m] != a[0];
        assert forall m :: 0 < m < |b| ==> b[m] != b[0];
        assert k in Elements(a) <==> k in Elements(b);
      }
      AscendingIsUnique(a[1..], b[1..]);
    }
  }

  /** Where a type is visited, the types it visits are visited too, under the same keys. */
  lemma {:induction false} VisitedBelow(r: RowObject, row: ResultRow, k: string, m: string)
    requires Clean(r) && k in Visited(r, row) && m in Visited(Visited(r, row)[k], row)
    ensures m in Visited(r, row) && Visited(r, row)[m] == Visited(Visited(r, row)[k], row)[m]
    decreases r, 1
  {
    if KeyOf(r, row) != Some(k) {
      VisitedAllBelow(r.children, row, k, m);
      OwnKeyApart(r, row);
    }
  }

  lemma {:induction false} VisitedAllBelow(rs: seq<RowObject>, row: ResultRow, k: string, m: string)
    requires CleanAll(rs) && k in VisitedAll(rs, row) && m in Visited(VisitedAll(rs, row)[k], row)
    ensures m in VisitedAll(rs, row) && VisitedAll(rs, row)[m] == Visited(VisitedAll(rs, row)[k], row)[m]
    decreases rs, 0
  {
    VisitedApart(rs[0], rs[1..], row);
    if k in VisitedAll(rs[1..], row) {
      VisitedAllBelow(rs[1..], row, k, m);
    } else {
      VisitedBelow(rs[0], row, k, m);
    }
  }

  /** No has-many field of an object with these rows links two children whose cache keys share a hash code. */
  predicate NoSiblingsCollide(n: RowObject, h: seq<ResultRow>, many: set<string>) {
    forall c :: c in n.children && c.path in many ==> NoCollision(KeysSeen(c, h))
  }

  /** The same rows in any order, each any number of times. */
  predicate SameRows(rows: seq<ResultRow>, rows': seq<ResultRow>) {
    (forall row :: row in rows ==> row in rows') && forall row | row in rows' :: row in rows
  }

  lemma OneType(root: RowObject, rows: seq<ResultRow>, row0: ResultRow, k: string)
    requires Clean(root) && row0 in rows && k in Visited(root, row0)
    ensures forall row :: row in rows && k in Visited(root, row) ==> Visited(root, row)[k] == Visited(root, row0)[k]
  {
    forall row | row in rows && k in Visited(root, row)
      ensures Visited(root, row)[k] == Visited(root, row0)[k]
    {
      OneTypePerKey(root, row, row0, k);
    }
  }

  lemma SameRowsSameObject(
      root: RowObject, rows: seq<ResultRow>, rows': seq<ResultRow>, many: set<string>, row0: ResultRow, k: string)
    requires Clean(root) && AllApart(root) && SameRows(rows, rows') && Agree(root, rows, many)
    requires row0 in rows && k in Visited(root, row0)
    requires NoSiblingsCollide(Visited(root, row0)[k], History(root, rows, k), many)
    ensures Lookup(ParseRows(root, rows, many).cache, k) == Lookup(ParseRows(root, rows', many).cache, k)
  {
    var n := Visited(root, row0)[k];
    OneType(root, rows, row0, k);
    CachedObject(root, rows, many, k, n);
    CachedObject(root, rows', many, k, n);
    VisitedIsApart(root, row0, k);
    var h, h' := History(root, rows, k), History(root, rows', k);
    assert row0 in h && row0 in h';
    var o, o' := TouchAll(n, h, many), TouchAll(n, h', many);
    forall f
      ensures Flat(o, f) == Flat(o', f)
    {
      SameField(root, rows, rows', many, k, n, f);
    }
    FieldsAfter(n, h, many, "");
    FieldsAfter(n, h', many, "");
    SameFieldsSameObject(o.value, o'.value);
  }

  /** The child of the first row stays in the set, whatever follows. */
  lemma {:induction false} FirstChildStays(c: RowObject, rows: seq<ResultRow>, m: string)
    requires rows != [] && KeyOf(c, rows[0]) == Some(m)
    ensures var field := ChildField(c, rows, true); field.Some? && field.value.Many? && m in field.value.keys
    decreases rows
  {
    var init, last := rows[..|rows| - 1], rows[|rows| - 1];
    if |rows| == 1 {
      assert init == [] && ChildField(c, rows, true) == Some(Many([m]));
    } else {
      FirstChildStays(c, init, m);
      if KeyOf(c, last).Some? {
        var before := ChildField(c, init, true).value.keys;
        TreeAddMembers(before, KeyOf(c, last).value);
        assert m in Elements(before);
      }
    }
  }

  lemma {:induction false} HistoryStarts(root: RowObject, rows: seq<ResultRow>, k: string)
    requires rows != [] && k in Visited(root, rows[0])
    ensures History(root, rows, k) != [] && History(root, rows, k)[0] == rows[0]
    decreases rows
  {
    var init := rows[..|rows| - 1];
    if |rows| > 1 {
      assert init[0] == rows[0];
      HistoryStarts(root, init, k);
    } else {
      assert init == [] && History(root, init, k) == [];
    }
  }

  /** Reading a row first keeps its child in the has-many field. */
  lemma ReadFirst(
      root: RowObject, rows: seq<ResultRow>, many: set<string>, row: ResultRow, k: string, c: RowObject)
    returns (rows': seq<ResultRow>, o: Option<Object>)
    requires Clean(root) && AllApart(root) && row in rows && k in Visited(root, row)
    requires c in Visited(root, row)[k].children && c.path in many && KeyOf(c, row).Some?
    ensures SameRows(rows, rows') && o == Lookup(ParseRows(root, rows', many).cache, k)
    ensures var field := Flat(o, c.parentField);
            field.Some? && field.value.Many? && Ascending(field.value.keys) && KeyOf(c, row).value in field.value.keys
  {
    var n := Visited(root, row)[k];
    rows' := [row] + rows;
    o := Lookup(ParseRows(root, rows', many).cache, k);
    OneType(root, rows', row, k);
    CachedObject(root, rows', many, k, n);
    HistoryStarts(root, rows', k);
    VisitedIsApart(root, row, k);
    var h := History(root, rows', k);
    FieldsAfter(n, h, many, c.parentField);
    FirstChildStays(c, h, KeyOf(c, row).value);
    ManyField(c, h);
  }

  ghost predicate OrderIsIrrelevant(root: RowObject, rows: seq<ResultRow>, many: set<string>, k: string) {
    forall rows' :: SameRows(rows, rows') ==>
      Lookup(ParseRows(root, rows, many).cache, k) == Lookup(ParseRows(root, rows', many).cache, k)
  }

  lemma OneOfCollidingStays(o: Option<Object>, field: string, m: string, m': string)
    requires Flat(o, field).Some? && Flat(o, field).value.Many? && Ascending(Flat(o, field).value.keys)
    requires JavaHash(m) == JavaHash(m') && m != m'
    ensures !(m in Flat(o, field).value.keys && m' in Flat(o, field).value.keys)
  {
    var keys := Flat(o, field).value.keys;
    AscendingHasNoCollision(keys);
    assert !(m in Elements(keys) && m' in Elements(keys));
  }

  lemma CollidingPair(c: RowObject, h: seq<ResultRow>) returns (row: ResultRow, row': ResultRow)
    requires !NoCollision(KeysSeen(c, h))
    ensures row in h && row' in h && KeyOf(c, row).Some? && KeyOf(c, row').Some? && KeyOf(c, row) != KeyOf(c, row')
    ensures JavaHash(KeyOf(c, row).value) == JavaHash(KeyOf(c, row').value)
  {
    var m, m' :| m in KeysSeen(c, h) && m' in KeysSeen(c, h) && JavaHash(m) == JavaHash(m') && m != m';
    row :| row in h && KeyOf(c, row) == Some(m);
    row' :| row' in h && KeyOf(c, row') == Some(m');
  }

  /** Of two colliding children the one that is read first stays. */
  lemma CollisionMakesOrderMatter(
      root: RowObject, rows: seq<ResultRow>, many: set<string>, row0: ResultRow, k: string)
    requires Clean(root) && AllApart(root) && row0 in rows && k in Visited(root, row0)
    requires !NoSiblingsCollide(Visited(root, row0)[k], History(root, rows, k), many)
    ensures !OrderIsIrrelevant(root, rows, many, k)
  {
    OneType(root, rows, row0, k);
    var c :| c in Visited(root, row0)[k].children && c.path in many &&
             !NoCollision(KeysSeen(c, History(root, rows, k)));
    var row, row' := CollidingPair(c, History(root, rows, k));
    var rows1, o := ReadFirst(root, rows, many, row, k, c);
    var rows2, o' := ReadFirst(root, rows, many, row', k, c);
    OneOfCollidingStays(o, c.parentField, KeyOf(c, row).value, KeyOf(c, row').value);
    assert o != o';
  }

  /**
   Rows may be permuted and repeated: when the rows agree on what keys stand for, the object of a key is the same for
   every row list with the same members iff no two children of one of its has-many fields share a hash code.
   */
  lemma RowOrderIsIrrelevantIff(root: RowObject, rows: seq<ResultRow>, many: set<string>, row0: ResultRow, k: string)
    requires Clean(root) && AllApart(root) && Agree(root, rows, many) && row0 in rows && k in Visited(root, row0)
    ensures OrderIsIrrelevant(root, rows, many, k) <==>
              NoSiblingsCollide(Visited(root, row0)[k], History(root, rows, k), many)
  {
    if NoSiblingsCollide(Visited(root, row0)[k], History(root, rows, k), many) {
      forall rows' | SameRows(rows, rows')
        ensures Lookup(ParseRows(root, rows, many).cache, k) == Lookup(ParseRows(root, rows', many).cache, k)
      {
        SameRowsSameObject(root, rows, rows', many, row0, k);
      }
    } else {
      CollisionMakesOrderMatter(root, rows, many, row0, k);
    }
  }

  lemma SameFieldsSameObject(o: Object, o': Object)
    requires forall f :: Flat(Some(o), f) == Flat(Some(o'), f)
    ensures o == o'
  {
    forall f
      ensures f in o <==> f in o'
      ensures f in o ==> o[f] == o'[f]
    {
      assert Flat(Some(o), f) == Flat(Some(o'), f);
    }
  }

  lemma SameField(
      root: RowObject, rows: seq<ResultRow>, rows': seq<ResultRow>, many: set<string>,
      k: string, n: RowObject, f: string)
    requires Clean(root) && Apart(n)
    requires SameRows(rows, rows') && Agree(root, rows, many)
    requires forall row :: row in rows && k in Visited(root, row) ==> Visited(root, row)[k] == n
    requires NoSiblingsCollide(n, History(root, rows, k), many)
    requires History(root, rows, k) != [] && History(root, rows', k) != []
    ensures Flat(TouchAll(n, History(root, rows, k), many), f) == Flat(TouchAll(n, History(root, rows', k), many), f)
  {
    var h, h' := History(root, rows, k), History(root, rows', k);
    FieldsAfter(n, h, many, f);
    FieldsAfter(n, h', many, f);
    if c :| c in n.values && c.name == f {
      SameColumn(h, h', c) by {
        forall row, row' | row in h && row' in h
          ensures Get(row, c.columnLabel) == Get(row', c.columnLabel)
        {
          assert k in Visited(root, row) && k in Visited(root, row');
        }
      }
    } else if c :| c in n.children && c.parentField == f {
      SameChild(h, h', c, c.path in many) by {
        forall row, row' | row in h && row' in h && c.path !in many && KeyOf(c, row).Some? && KeyOf(c, row').Some?
          ensures KeyOf(c, row) == KeyOf(c, row')
        {
          assert k in Visited(root, row) && k in Visited(root, row');
        }
      }
    } else if f == n.key.name {
      VisitedNames(root, h[0], k);
      VisitedNames(root, h'[0], k);
      SameKeySamePath(n, h[0], n, h'[0]);
    }
  }

  lemma SameColumn(h: seq<ResultRow>, h': seq<ResultRow>, c: LabelledColumn)
    requires h != [] && h' != [] && forall row :: row in h <==> row in h'
    requires forall row, row' :: row in h && row' in h ==> Get(row, c.columnLabel) == Get(row', c.columnLabel)
    ensures ColumnField(c, h) == ColumnField(c, h')
  {
    assert h[0] in h;
    AgreedColumn(c, h, Get(h[0], c.columnLabel));
    AgreedColumn(c, h', Get(h[0], c.columnLabel));
  }

  lemma SameChild(h: seq<ResultRow>, h': seq<ResultRow>, c: RowObject, isMany: bool)
    requires h != [] && h' != [] && forall row :: row in h <==> row in h'
    requires isMany ==> NoCollision(KeysSeen(c, h))
    requires forall row, row' ::
               row in h && row' in h && !isMany && KeyOf(c, row).Some? && KeyOf(c, row').Some? ==>
               KeyOf(c, row) == KeyOf(c, row')
    ensures ChildField(c, h, isMany) == ChildField(c, h', isMany)
  {
    assert KeysSeen(c, h) == KeysSeen(c, h');
    if isMany {
      HasManyIsCompleteIffNoCollision(c, h);
      HasManyIsCompleteIffNoCollision(c, h');
      ManyField(c, h);
      ManyField(c, h');
      AscendingIsUnique(ChildField(c, h, true).value.keys, ChildField(c, h', true).value.keys);
    } else {
      OneField(c, h);
      OneField(c, h');
    }
  }
}
