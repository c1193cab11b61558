/**
 Pagination: the roots of the outer rows are the page of the sub-select, and when its order is kept.
 */
module Paging {
  import opened Truth
  import opened Filters
  import opened Seqs
  import opened Sql
  import opened Query
  import opened Ordering
  import opened Statement

  // ---------------------------------------------------------------- the roots of joined rows

  /** The roots of joined rows, each where it first appears. */
  function FirstRoots(q: Request, js: seq<JoinedRow>): (r: seq<Row>)
    ensures forall x :: x in r <==> exists j :: j in js && RootOf(q, j) == x
  {
    if js == [] then []
    else
      var init, last := js[..|js| - 1], js[|js| - 1];
      assert forall j :: j in js <==> j in init || j == last;
      var before := FirstRoots(q, init);
      if RootOf(q, last) in before then before else before + [RootOf(q, last)]
  }

  predicate AppearsBefore(q: Request, js: seq<JoinedRow>, x: Row, y: Row) {
    exists i, k :: 0 <= i < k < |js| && RootOf(q, js[i]) == x && RootOf(q, js[k]) == y
  }

  lemma AppearsAt(q: Request, js: seq<JoinedRow>, i: nat, k: nat)
    requires i < k < |js|
    ensures AppearsBefore(q, js, RootOf(q, js[i]), RootOf(q, js[k]))
  {
  }

  /** A root that was there before the last row appears before the last root. */
  lemma AppearsBeforeLast(q: Request, js: seq<JoinedRow>, x: Row)
    requires js != [] && x in FirstRoots(q, js[..|js| - 1])
    ensures AppearsBefore(q, js, x, RootOf(q, js[|js| - 1]))
  {
    var init := js[..|js| - 1];
    var j :| j in init && RootOf(q, j) == x;
    var i :| 0 <= i < |init| && init[i] == j;
    AppearsAt(q, js, i, |js| - 1);
  }

  lemma {:induction false} FirstRootsInOrder(q: Request, js: seq<JoinedRow>)
    ensures Distinct(FirstRoots(q, js))
    ensures forall a, b :: 0 <= a < b < |FirstRoots(q, js)| ==>
              AppearsBefore(q, js, FirstRoots(q, js)[a], FirstRoots(q, js)[b])
    decreases js
  {
    if js != [] {
      var init, last := js[..|js| - 1], js[|js| - 1];
      FirstRootsInOrder(q, init);
      var r, before := FirstRoots(q, js), FirstRoots(q, init);
      forall a, b | 0 <= a < b < |r|
        ensures AppearsBefore(q, js, r[a], r[b])
      {
        assert r[a] == before[a] && before[a] in before;
        if b < |before| {
          assert r[b] == before[b];
          AppearsEarlier(q, js, r[a], r[b]);
        } else {
          AppearsBeforeLast(q, js, r[a]);
        }
      }
    }
  }

  lemma AppearsEarlier(q: Request, js: seq<JoinedRow>, x: Row, y: Row)
    requires js != [] && AppearsBefore(q, js[..|js| - 1], x, y)
    ensures AppearsBefore(q, js, x, y)
  {
    var init := js[..|js| - 1];
    var i, k :| 0 <= i < k < |init| && RootOf(q, init[i]) == x && RootOf(q, init[k]) == y;
    AppearsAt(q, js, i, k);
  }

  lemma FirstRootsSorted(db: Database, q: Request, js: seq<JoinedRow>)
    requires Sorted(db.collation, SortKeys(q), js)
    requires forall j: JoinedRow :: j in js ==> RootPath(q) in j && j[RootPath(q)].Some?
    ensures Sorted(db.collation, SortKeys(q), RootRows(q, FirstRoots(q, js)))
  {
    var r := FirstRoots(q, js);
    FirstRootsInOrder(q, js);
    forall a, b | 0 <= a < b < |r|
      ensures !Before(db.collation, SortKeys(q), RootRows(q, r)[b], RootRows(q, r)[a])
    {
      assert AppearsBefore(q, js, r[a], r[b]);
      var i, k :| 0 <= i < k < |js| && RootOf(q, js[i]) == r[a] && RootOf(q, js[k]) == r[b];
      SortReadsRoots(db, q, js[k], js[i]);
    }
  }

  lemma SortedByRoot(db: Database, q: Request, s: BoundSelect, js: seq<JoinedRow>)
    requires Sorted(db.collation, SortKeys(q) + JoinKeys(q, s.joins), js)
    ensures Sorted(db.collation, SortKeys(q), js)
  {
    forall a, b | 0 <= a < b < |js|
      ensures !Before(db.collation, SortKeys(q), js[b], js[a])
    {
      if Before(db.collation, SortKeys(q), js[b], js[a]) {
        BeforeByPrefix(db.collation, SortKeys(q), JoinKeys(q, s.joins), js[b], js[a]);
      }
    }
  }

  // ---------------------------------------------------------------- ties

  /** The primary key takes part in the root order: unless the sort field is an "id" that is not the key. */
  predicate TieBroken(q: Request) {
    q.sort.field.Some? && q.sort.field.value == DEFAULT_ID ==> RootId(q) == DEFAULT_ID
  }

  lemma TieBrokenKeys(q: Request)
    requires TieBroken(q)
    ensures exists k :: k in SortKeys(q) && k.column == Column(RootPath(q), RootId(q))
  {
    var field := if q.sort.field.Some? then q.sort.field.value else RootId(q);
    var keys := SortKeys(q);
    if field == RootId(q) {
      assert keys[0].column == Column(RootPath(q), RootId(q)) && keys[0] in keys;
    } else {
      assert keys[1].column == Column(RootPath(q), RootId(q)) && keys[1] in keys;
    }
  }

  /** Two different roots are ordered one way or the other. */
  lemma RootsOrdered(db: Database, q: Request, x: Row, y: Row)
    requires TotalOrder(db.collation) && TieBroken(q) && UniqueKeys(db, q.root)
    requires x in RowsOf(db, q.root.table) && y in RowsOf(db, q.root.table) && x != y
    ensures Before(db.collation, SortKeys(q), RootRow(q, x), RootRow(q, y)) ||
            Before(db.collation, SortKeys(q), RootRow(q, y), RootRow(q, x))
  {
    TieBrokenKeys(q);
    var k :| k in SortKeys(q) && k.column == Column(RootPath(q), RootId(q));
    BeforeIsTotal(db.collation, SortKeys(q), RootRow(q, x), RootRow(q, y), k);
  }

  lemma SortReadsRoots(db: Database, q: Request, i: JoinedRow, j: JoinedRow)
    requires RootPath(q) in i && i[RootPath(q)].Some? && RootPath(q) in j && j[RootPath(q)].Some?
    ensures Before(db.collation, SortKeys(q), i, j) ==
            Before(db.collation, SortKeys(q), RootRow(q, RootOf(q, i)), RootRow(q, RootOf(q, j)))
  {
    BeforeReadsColumns(db.collation, SortKeys(q), i, j, RootRow(q, RootOf(q, i)), RootRow(q, RootOf(q, j)));
  }

  /** Neither row comes before the other. */
  predicate Tied(db: Database, q: Request, x: Row, y: Row) {
    !Before(db.collation, SortKeys(q), RootRow(q, x), RootRow(q, y)) &&
    !Before(db.collation, SortKeys(q), RootRow(q, y), RootRow(q, x))
  }

  predicate Untied(db: Database, q: Request, xs: seq<Row>) {
    forall a, b :: 0 <= a < b < |xs| ==> !Tied(db, q, xs[a], xs[b])
  }

  predicate InTable(db: Database, q: Request, xs: seq<Row>) {
    forall x :: x in xs ==> x in RowsOf(db, q.root.table)
  }

  /** Sorted by an "id" that is not the key, two rows are tied iff they have the same "id". */
  lemma TiedById(db: Database, q: Request, x: Row, y: Row)
    requires TotalOrder(db.collation) && !TieBroken(q)
    ensures Tied(db, q, x, y) <==> Col(x, DEFAULT_ID) == Col(y, DEFAULT_ID)
  {
    assert SortKeys(q) == [OrderKey(Column(RootPath(q), DEFAULT_ID), q.sort.descending)];
    assert SortKeys(q)[1..] == [];
    var k, i, j := SortKeys(q)[0], RootRow(q, x), RootRow(q, y);
    var a, b := ColumnOf(i, k.column), ColumnOf(j, k.column);
    assert a == Col(x, DEFAULT_ID) && b == Col(y, DEFAULT_ID);
    assert !Before(db.collation, SortKeys(q)[1..], i, j) && !Before(db.collation, SortKeys(q)[1..], j, i);
    assert Tied(db, q, x, y) <==> !LessBy(db.collation, k, i, j) && !LessBy(db.collation, k, j, i);
    assert !LessBy(db.collation, k, i, j) && !LessBy(db.collation, k, j, i) <==> a == b;
  }

  /** A page has no ties unless the request sorts by an "id" that is not the key, and two of its rows share it. */
  lemma UntiedIff(db: Database, q: Request, xs: seq<Row>)
    requires TotalOrder(db.collation) && UniqueKeys(db, q.root) && Distinct(xs) && InTable(db, q, xs)
    ensures Untied(db, q, xs) <==>
              TieBroken(q) || forall a, b :: 0 <= a < b < |xs| ==> Col(xs[a], DEFAULT_ID) != Col(xs[b], DEFAULT_ID)
  {
    forall a, b | 0 <= a < b < |xs|
      ensures !Tied(db, q, xs[a], xs[b]) <==> TieBroken(q) || Col(xs[a], DEFAULT_ID) != Col(xs[b], DEFAULT_ID)
    {
      assert xs[a] in xs && xs[b] in xs;
      if TieBroken(q) {
        RootsOrdered(db, q, xs[a], xs[b]);
      } else {
        TiedById(db, q, xs[a], xs[b]);
      }
    }
  }

  lemma UntiedIsStrict(db: Database, q: Request, xs: seq<Row>)
    requires Sorted(db.collation, SortKeys(q), RootRows(q, xs)) && Untied(db, q, xs)
    ensures StrictlySorted(db.collation, SortKeys(q), RootRows(q, xs))
  {
    forall a, b | 0 <= a < b < |xs|
      ensures Before(db.collation, SortKeys(q), RootRows(q, xs)[a], RootRows(q, xs)[b])
    {
      assert !Tied(db, q, xs[a], xs[b]);
      assert !Before(db.collation, SortKeys(q), RootRows(q, xs)[b], RootRows(q, xs)[a]);
    }
  }

  /** A list with the members of an untied list has no ties. */
  lemma UntiedMembers(db: Database, q: Request, xs: seq<Row>, ys: seq<Row>)
    requires Untied(db, q, xs) && Distinct(ys) && forall y :: y in ys ==> y in xs
    ensures Untied(db, q, ys)
  {
    forall a, b | 0 <= a < b < |ys|
      ensures !Tied(db, q, ys[a], ys[b])
    {
      assert ys[a] in xs && ys[b] in xs;
      var i :| 0 <= i < |xs| && xs[i] == ys[a];
      var k :| 0 <= k < |xs| && xs[k] == ys[b];
      assert i < k || k < i;
    }
  }

  /** Two strictly sorted lists of the same rows are one list. */
  lemma StrictListsEqual(db: Database, q: Request, xs: seq<Row>, ys: seq<Row>)
    requires TotalOrder(db.collation) && forall x :: x in xs <==> x in ys
    requires StrictlySorted(db.collation, SortKeys(q), RootRows(q, xs))
    requires StrictlySorted(db.collation, SortKeys(q), RootRows(q, ys))
    ensures xs == ys
  {
    forall j
      ensures j in RootRows(q, xs) <==> j in RootRows(q, ys)
    {
      RootRowsMembers(q, xs, j);
      RootRowsMembers(q, ys, j);
    }
    SortedListsAreEqual(db.collation, SortKeys(q), RootRows(q, xs), RootRows(q, ys));
    RootRowsInjective(q, xs, ys);
  }

  /** Two sorted lists of the same members without ties are one list. */
  lemma SortedUntiedEqual(db: Database, q: Request, xs: seq<Row>, ys: seq<Row>)
    requires TotalOrder(db.collation) && Untied(db, q, xs) && Distinct(ys)
    requires Sorted(db.collation, SortKeys(q), RootRows(q, xs)) && Sorted(db.collation, SortKeys(q), RootRows(q, ys))
    requires forall x :: x in xs <==> x in ys
    ensures xs == ys
  {
    UntiedMembers(db, q, xs, ys);
    UntiedIsStrict(db, q, xs);
    UntiedIsStrict(db, q, ys);
    StrictListsEqual(db, q, xs, ys);
  }

  // ---------------------------------------------------------------- the order that was asked for

  /** The field a request is sorted by: the one it names, or the key. */
  function RequestedField(q: Request): string {
    match q.sort.field
    case Some(field) => field
    case None => q.root.key
  }

  /** A row that must come first by a field, in a direction: the smaller value, or the greater; NULL is the greatest. */
  predicate ComesFirst(co: Collation, field: string, descending: bool, x: Row, y: Row) {
    if descending then Less(co, Col(y, field), Col(x, field)) else Less(co, Col(x, field), Col(y, field))
  }

  /**
   Of two rows the one that comes first by the requested field, in the requested direction, stands first; when they
   share its value, and it is neither the key nor "id", the one with the smaller key.
   */
  ghost predicate AsRequested(db: Database, q: Request, xs: seq<Row>) {
    forall a, b :: 0 <= a < b < |xs| ==>
      !ComesFirst(db.collation, RequestedField(q), q.sort.descending, xs[b], xs[a]) &&
      (TiedByField(db, q, xs[a], xs[b]) ==> !ComesFirst(db.collation, q.root.key, false, xs[b], xs[a]))
  }

  ghost predicate TiedByField(db: Database, q: Request, x: Row, y: Row) {
    var field := RequestedField(q);
    TotalOrder(db.collation) && Col(x, field) == Col(y, field) && field != q.root.key && field != "id"
  }

  lemma TwoAsRequested(db: Database, q: Request, x: Row, y: Row)
    requires !Before(db.collation, SortKeys(q), RootRow(q, y), RootRow(q, x))
    ensures !ComesFirst(db.collation, RequestedField(q), q.sort.descending, y, x)
    ensures TiedByField(db, q, x, y) ==> !ComesFirst(db.collation, q.root.key, false, y, x)
  {
    var co, keys, i, j := db.collation, SortKeys(q), RootRow(q, x), RootRow(q, y);
    SortedAt(co, keys, i, j, 0);
    if TiedByField(db, q, x, y) {
      assert |keys| == 2 && keys[1].column == Column(RootPath(q), q.root.key) && !keys[1].descending;
      SortedAt(co, keys, i, j, 1);
    }
  }

  /** Of two different roots that share the field the smaller key stands first, as keys are unique. */
  lemma SmallerKeyFirst(db: Database, q: Request, xs: seq<Row>, a: nat, b: nat)
    requires AsRequested(db, q, xs) && UniqueKeys(db, q.root) && Distinct(xs) && InTable(db, q, xs)
    requires a < b < |xs| && TiedByField(db, q, xs[a], xs[b])
    ensures ComesFirst(db.collation, q.root.key, false, xs[a], xs[b])
  {
    assert xs[a] in xs && xs[b] in xs && xs[a] != xs[b];
    assert Col(xs[a], q.root.key) != Col(xs[b], q.root.key);
  }

  /** What SQL sorts by the compiled keys is in the order that was asked for. */
  lemma SortedAsRequested(db: Database, q: Request, xs: seq<Row>)
    requires Sorted(db.collation, SortKeys(q), RootRows(q, xs))
    ensures AsRequested(db, q, xs)
  {
    forall a, b | 0 <= a < b < |xs|
      ensures !Before(db.collation, SortKeys(q), RootRow(q, xs[b]), RootRow(q, xs[a]))
    {
      assert !Before(db.collation, SortKeys(q), RootRows(q, xs)[b], RootRows(q, xs)[a]);
    }
    forall a, b | 0 <= a < b < |xs|
      ensures !ComesFirst(db.collation, RequestedField(q), q.sort.descending, xs[b], xs[a])
      ensures TiedByField(db, q, xs[a], xs[b]) ==> !ComesFirst(db.collation, q.root.key, false, xs[b], xs[a])
    {
      TwoAsRequested(db, q, xs[a], xs[b]);
    }
  }

  /** The rows agree on the fields their roots are sorted by and on the keys of the first m joined tables. */
  predicate AgreeUpTo(q: Request, bs: seq<BoundJoin>, i: JoinedRow, j: JoinedRow, m: nat)
    requires m <= |bs|
  {
    ColumnOf(i, Column(RootPath(q), RequestedField(q))) == ColumnOf(j, Column(RootPath(q), RequestedField(q))) &&
    ColumnOf(i, Column(RootPath(q), q.root.key)) == ColumnOf(j, Column(RootPath(q), q.root.key)) &&
    forall k :: 0 <= k < m ==>
      ColumnOf(i, Column(bs[k].join.path, KeyFor(q, bs[k].join.path))) ==
      ColumnOf(j, Column(bs[k].join.path, KeyFor(q, bs[k].join.path)))
  }

  lemma OuterOrdered(
      db: Database, q: Request, s: BoundSelect, page: seq<Row>, labels: map<string, Column>, js: seq<JoinedRow>,
      a: nat, b: nat)
    requires Sub(q, s) && SelectsRows(db, OuterOf(q, s), page, labels, js) && a < b < |js|
    ensures !Before(db.collation, SortKeys(q) + JoinKeys(q, s.joins), js[b], js[a])
  {
  }

  /** The rows of one root come table by table with the greater key of the joined table first, in join order. */
  lemma JoinedRowsDescend(
      db: Database, q: Request, s: BoundSelect, page: seq<Row>, labels: map<string, Column>, js: seq<JoinedRow>,
      a: nat, b: nat, m: nat)
    requires Sub(q, s) && SelectsRows(db, OuterOf(q, s), page, labels, js) && TotalOrder(db.collation)
    requires a < b < |js| && m < |s.joins| && AgreeUpTo(q, s.joins, js[a], js[b], m)
    ensures var c := Column(s.joins[m].join.path, KeyFor(q, s.joins[m].join.path));
            !Less(db.collation, ColumnOf(js[a], c), ColumnOf(js[b], c))
  {
    OuterOrdered(db, q, s, page, labels, js, a, b);
    DescendsAt(db.collation, SortKeys(q), JoinKeys(q, s.joins), js[a], js[b], m);
  }

  // ---------------------------------------------------------------- the page

  lemma PageSorted(db: Database, q: Request, s: BoundSelect, xs: seq<Row>)
    requires Sub(q, s) && SelectsRoots(db, s, xs)
    ensures Distinct(PageOf(q, xs)) && Sorted(db.collation, SortKeys(q), RootRows(q, PageOf(q, xs)))
    ensures InTable(db, q, PageOf(q, xs)) && AsRequested(db, q, xs) && AsRequested(db, q, PageOf(q, xs))
  {
    SortedAsRequested(db, q, xs);
    SliceSorted(db, q, xs);
    SortedAsRequested(db, q, PageOf(q, xs));
    forall x | x in PageOf(q, xs)
      ensures x in RowsOf(db, q.root.table)
    {
      RootIsKept(db, q, s, xs, x);
    }
  }

  lemma SliceSorted(db: Database, q: Request, xs: seq<Row>)
    requires Distinct(xs) && Sorted(db.collation, SortKeys(q), RootRows(q, xs))
    ensures Distinct(PageOf(q, xs)) && Sorted(db.collation, SortKeys(q), RootRows(q, PageOf(q, xs)))
  {
    var page := PageOf(q, xs);
    var from := SliceAt(xs, q.skip, q.limit);
    forall a, b | 0 <= a < b < |page|
      ensures page[a] != page[b] && !Before(db.collation, SortKeys(q), RootRows(q, page)[b], RootRows(q, page)[a])
    {
      assert RootRows(q, page)[a] == RootRows(q, xs)[from + a] && RootRows(q, page)[b] == RootRows(q, xs)[from + b];
    }
  }

  /**
   Pagination counts root objects, not joined rows: the distinct roots of the outer rows are exactly the limit/offset
   page of the distinct roots that satisfy the filter, sorted, and in the order of the page when it has no ties.
   */
  lemma Pagination(
      db: Database, q: Request, s: BoundSelect, xs: seq<Row>, labels: map<string, Column>, js: seq<JoinedRow>)
    requires PageAnswered(db, q, s, xs, labels, js) && UniqueKeys(db, q.root) && ShowsRootKey(q, labels)
    ensures Distinct(FirstRoots(q, js)) && forall x :: x in FirstRoots(q, js) <==> x in PageOf(q, xs)
    ensures Sorted(db.collation, SortKeys(q), RootRows(q, FirstRoots(q, js)))
    ensures AsRequested(db, q, PageOf(q, xs)) && AsRequested(db, q, FirstRoots(q, js))
    ensures TotalOrder(db.collation) && Untied(db, q, PageOf(q, xs)) ==> FirstRoots(q, js) == PageOf(q, xs)
  {
    forall x
      ensures x in FirstRoots(q, js) <==> x in PageOf(q, xs)
    {
      PageIsShown(db, q, s, xs, labels, js, x);
    }
    RowsShowRoots(db, q, s, xs, labels, js);
    SortedByRoot(db, q, s, js);
    FirstRootsSorted(db, q, js);
    FirstRootsInOrder(q, js);
    PageSorted(db, q, s, xs);
    SortedAsRequested(db, q, FirstRoots(q, js));
    if TotalOrder(db.collation) && Untied(db, q, PageOf(q, xs)) {
      SortedUntiedEqual(db, q, PageOf(q, xs), FirstRoots(q, js));
    }
  }

  // ---------------------------------------------------------------- exactly when order is kept

  /** Neighbours between two tied rows of a sorted list are tied. */
  lemma TiedNeighbours(db: Database, q: Request, xs: seq<Row>, a: nat, b: nat)
    requires TotalOrder(db.collation) && Sorted(db.collation, SortKeys(q), RootRows(q, xs))
    requires a < b < |xs| && Tied(db, q, xs[a], xs[b])
    ensures Tied(db, q, xs[a], xs[a + 1])
  {
    var co, keys, rows := db.collation, SortKeys(q), RootRows(q, xs);
    assert !Before(co, keys, rows[a + 1], rows[a]);
    if Before(co, keys, rows[a], rows[a + 1]) && a + 1 < b {
      BeforeSplits(co, keys, rows[a], rows[a + 1], rows[b]);
    }
  }

  function Swapped(xs: seq<Row>, a: nat): seq<Row>
    requires a + 1 < |xs|
  {
    xs[a := xs[a + 1]][a + 1 := xs[a]]
  }

  lemma SwappedSorted(db: Database, q: Request, xs: seq<Row>, a: nat)
    requires a + 1 < |xs| && Distinct(xs) && Sorted(db.collation, SortKeys(q), RootRows(q, xs))
    requires Tied(db, q, xs[a], xs[a + 1])
    ensures Distinct(Swapped(xs, a)) && Sorted(db.collation, SortKeys(q), RootRows(q, Swapped(xs, a)))
    ensures forall x :: x in Swapped(xs, a) <==> x in xs
  {
    var ys := Swapped(xs, a);
    forall i, k | 0 <= i < k < |ys|
      ensures !Before(db.collation, SortKeys(q), RootRows(q, ys)[k], RootRows(q, ys)[i])
    {
      SwappedAt(xs, a, i);
      SwappedAt(xs, a, k);
      var i', k' := SwappedFrom(a, i), SwappedFrom(a, k);
      assert RootRows(q, ys)[i] == RootRows(q, xs)[i'] && RootRows(q, ys)[k] == RootRows(q, xs)[k'];
      assert i' < k' || (i == a && k == a + 1);
    }
    SwappedMembers(xs, a);
  }

  function SwappedFrom(a: nat, i: nat): nat {
    if i == a then a + 1 else if i == a + 1 then a else i
  }

  lemma SwappedAt(xs: seq<Row>, a: nat, i: nat)
    requires a + 1 < |xs| && i < |xs|
    ensures Swapped(xs, a)[i] == xs[SwappedFrom(a, i)] && Swapped(xs, a)[SwappedFrom(a, i)] == xs[i]
  {
  }

  lemma SwappedMembers(xs: seq<Row>, a: nat)
    requires a + 1 < |xs|
    ensures forall x :: x in Swapped(xs, a) <==> x in xs
    ensures Distinct(xs) ==> Distinct(Swapped(xs, a))
  {
    forall x
      ensures x in Swapped(xs, a) <==> x in xs
    {
      if x in xs {
        var i :| 0 <= i < |xs| && xs[i] == x;
        SwappedAt(xs, a, i);
      }
      if x in Swapped(xs, a) {
        var i :| 0 <= i < |xs| && Swapped(xs, a)[i] == x;
        SwappedAt(xs, a, i);
      }
    }
  }

  /** The outer rows depend on the members of the page, not on their order. */
  lemma SamePageSameRows(
      db: Database, q: Request, s: BoundSelect, page: seq<Row>, page': seq<Row>, labels: map<string, Column>,
      js: seq<JoinedRow>)
    requires Sub(q, s) && SelectsRows(db, OuterOf(q, s), page, labels, js)
    requires forall x :: x in page <==> x in page'
    ensures SelectsRows(db, OuterOf(q, s), page', labels, js)
  {
    forall j
      ensures Kept(db, OuterOf(q, s), page', j) <==> Kept(db, OuterOf(q, s), page, j)
    {
      KeptByRoot(db, q, s, page', j);
      KeptByRoot(db, q, s, page, j);
    }
  }

  lemma SameRootsSelected(db: Database, s: BoundSelect, xs: seq<Row>, ys: seq<Row>)
    requires Fitting(s) && SelectsRoots(db, s, xs) && Distinct(ys) &&
             Sorted(db.collation, s.orderings, BaseRows(s.from, ys))
    requires forall x :: x in ys <==> x in xs
    ensures SelectsRoots(db, s, ys)
  {
  }

  /** With two tied neighbours swapped, the database has answered just as well. */
  lemma SwappedAnswered(
      db: Database, q: Request, s: BoundSelect, xs: seq<Row>, labels: map<string, Column>, js: seq<JoinedRow>, a: nat)
    requires PageAnswered(db, q, s, xs, labels, js)
    requires a + 1 < |xs| && Tied(db, q, xs[a], xs[a + 1])
    requires forall x :: x in PageOf(q, Swapped(xs, a)) <==> x in PageOf(q, xs)
    ensures PageAnswered(db, q, s, Swapped(xs, a), labels, js)
  {
    SwappedSorted(db, q, xs, a);
    SameRootsSelected(db, s, xs, Swapped(xs, a));
    SamePageSameRows(db, q, s, PageOf(q, xs), PageOf(q, Swapped(xs, a)), labels, js);
  }

  /** Two neighbours of a page are neighbours in the list. */
  lemma PageSwapped(q: Request, xs: seq<Row>, a: nat) returns (at: nat)
    requires a + 1 < |PageOf(q, xs)|
    ensures at + 1 < |xs| && xs[at] == PageOf(q, xs)[a] && xs[at + 1] == PageOf(q, xs)[a + 1]
    ensures PageOf(q, Swapped(xs, at)) == Swapped(PageOf(q, xs), a)
  {
    var from := if q.skip.None? then 0 else if q.skip.value < |xs| then q.skip.value else |xs|;
    at := from + a;
    assert PageOf(q, Swapped(xs, at)) == Swapped(PageOf(q, xs), a);
  }

  /** The order of a page is kept by every answer iff no two of its rows are tied. */
  ghost predicate InOrder(
    db: Database, q: Request, s: BoundSelect, labels: map<string, Column>, js: seq<JoinedRow>)
  {
    forall xs :: PageAnswered(db, q, s, xs, labels, js) ==> FirstRoots(q, js) == PageOf(q, xs)
  }

  lemma PageInOrderIff(
      db: Database, q: Request, s: BoundSelect, xs: seq<Row>, labels: map<string, Column>, js: seq<JoinedRow>)
    requires PageAnswered(db, q, s, xs, labels, js) && UniqueKeys(db, q.root) && ShowsRootKey(q, labels)
    requires TotalOrder(db.collation)
    ensures InOrder(db, q, s, labels, js) <==> Untied(db, q, PageOf(q, xs))
  {
    var page := PageOf(q, xs);
    Pagination(db, q, s, xs, labels, js);
    PageSorted(db, q, s, xs);
    if Untied(db, q, page) {
      forall ys | PageAnswered(db, q, s, ys, labels, js)
        ensures FirstRoots(q, js) == PageOf(q, ys)
      {
        Pagination(db, q, s, ys, labels, js);
        PageSorted(db, q, s, ys);
        UntiedMembers(db, q, page, PageOf(q, ys));
      }
    } else {
      var a, b :| 0 <= a < b < |page| && Tied(db, q, page[a], page[b]);
      TieLosesOrder(db, q, s, xs, labels, js, a, b);
    }
  }

  lemma TieLosesOrder(
      db: Database, q: Request, s: BoundSelect, xs: seq<Row>, labels: map<string, Column>, js: seq<JoinedRow>,
      a: nat, b: nat)
    requires PageAnswered(db, q, s, xs, labels, js) && TotalOrder(db.collation)
    requires a < b < |PageOf(q, xs)| && Tied(db, q, PageOf(q, xs)[a], PageOf(q, xs)[b])
    ensures !InOrder(db, q, s, labels, js)
  {
    var page := PageOf(q, xs);
    PageSorted(db, q, s, xs);
    TiedNeighbours(db, q, page, a, b);
    var at := PageSwapped(q, xs, a);
    SwappedSorted(db, q, page, a);
    SwappedAnswered(db, q, s, xs, labels, js, at);
    SwappedDiffers(db, q, s, xs, labels, js, Swapped(xs, at), a);
  }

  lemma SwappedDiffers(
      db: Database, q: Request, s: BoundSelect, xs: seq<Row>, labels: map<string, Column>, js: seq<JoinedRow>,
      ys: seq<Row>, a: nat)
    requires PageAnswered(db, q, s, xs, labels, js) && PageAnswered(db, q, s, ys, labels, js)
    requires a + 1 < |PageOf(q, xs)| && PageOf(q, ys) == Swapped(PageOf(q, xs), a) && Distinct(PageOf(q, xs))
    ensures !InOrder(db, q, s, labels, js)
  {
    assert PageOf(q, ys)[a] != PageOf(q, xs)[a];
  }
}
