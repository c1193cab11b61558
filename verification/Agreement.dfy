/** Both query modes answer a request with the same nested objects. */
module Agreement {
  import opened Truth
  import opened Filters
  import opened FilterLaws
  import opened FilterParser
  import opened Seqs
  import opened Sql
  import opened Query
  import opened Ordering
  import opened Statement
  import opened Paging
  import opened Loader
  import opened Rebuild
  import opened SingleMode
  import opened Batch
  import opened Multi

  /** The root query of multi-query mode: no join, the request's page and sort. */
  function RootQuery(q: Request): BatchQuery {
    BatchQuery(q.root.table, q.root.columns, true, q.root.filter,
               Some(if q.sort.field.Some? then q.sort.field.value else RootId(q)), q.sort.descending, None,
               q.skip, q.limit)
  }

  predicate SortedByKey(q: Request) {
    q.sort.field.Some? ==> q.sort.field.value == RootId(q)
  }

  lemma RootTextFits(q: Request)
    requires WellFormedSet(q.root.filter)
    ensures TextOf([RootQuery(q)]).ParsedBatch? && Batch.Bindable(TextOf([RootQuery(q)]).text, Args([RootQuery(q)]))
    ensures var t := TextOf([RootQuery(q)]).text;
            t.bridge.None? && t.inList.None? && t.table == q.root.table && t.columns == q.root.columns &&
            t.skip == q.skip && t.limit == q.limit && RootQuery(q).sort == Some(t.sort) &&
            t.descending == q.sort.descending
  {
    assert InColumn([RootQuery(q)]) == InColumn([]) by {
      assert [RootQuery(q)][1..] == [];
    }
    if q.root.filter.Some? {
      var s := q.root.filter.value;
      BindingMatchesCompiling(s, [q.root.table]);
      CompileHoles(s, [q.root.table], None);
    }
  }

  lemma RootChosen(db: Database, q: Request, x: Row)
    requires WellFormedSet(q.root.filter)
    ensures TextOf([RootQuery(q)]).ParsedBatch? && Batch.Bindable(TextOf([RootQuery(q)]).text, Args([RootQuery(q)]))
    ensures Chosen(db, TextOf([RootQuery(q)]).text, Args([RootQuery(q)]), x) <==>
              x in RowsOf(db, q.root.table) && Selected(db.collation, q.root.filter, x)
  {
    RootTextFits(q);
    ChosenIff(db, RootQuery(q), x);
  }

  /** The database has answered the root query. */
  ghost predicate RootAnswered(db: Database, q: Request, rows: seq<Row>)
    requires WellFormedSet(q.root.filter)
  {
    RootTextFits(q);
    Batch.Answers(db, TextOf([RootQuery(q)]).text, Args([RootQuery(q)]), rows)
  }

  /** A run of multi-query mode that did not fail. */
  ghost predicate MultiRun(db: Database, q: Request, rows: seq<Row>, objects: seq<ResultObject>)
    requires WellFormedSet(q.root.filter)
  {
    RootAnswered(db, q, rows) && |objects| == |rows| &&
    forall i :: 0 <= i < |rows| ==>
      AtMostOne(db, q.root, rows[i]) && TreeOf(q.root, objects[i]) == Build(db, q.root, rows[i])
  }

  /** A database takes the root query exactly when its sort field is selected and its filter names own columns. */
  lemma RootLegalIff(db: Database, q: Request)
    requires WellFormedSet(q.root.filter) && q.root.key in q.root.columns && ColumnsKnown(db, q.root)
    ensures TextOf([RootQuery(q)]).ParsedBatch?
    ensures LegalBatch(db, TextOf([RootQuery(q)]).text) <==> SortSelected(q) && FilterKnown(db, q.root)
  {
    RootTextFits(q);
    assert InColumn([RootQuery(q)]) == InColumn([]) by {
      assert [RootQuery(q)][1..] == [];
    }
    if q.root.filter.Some? {
      NamesOwnColumns(db, q.root.filter.value, [q.root.table], q.root.table);
    }
  }

  /** The root rows are in the order that was asked for. */
  predicate RowsAsRequested(db: Database, q: Request, rows: seq<Row>) {
    forall a, b :: 0 <= a < b < |rows| ==>
      !ComesFirst(db.collation, RequestedField(q), q.sort.descending, rows[b], rows[a])
  }

  lemma RootsAsRequested(db: Database, q: Request, rows: seq<Row>)
    requires WellFormedSet(q.root.filter) && RootAnswered(db, q, rows)
    ensures RowsAsRequested(db, q, rows)
  {
    RootTextFits(q);
    var t, args := TextOf([RootQuery(q)]).text, Args([RootQuery(q)]);
    var all :| AnswersAll(db, t, args, all) && rows == Slice(all, t.skip, t.limit);
    var from := SliceAt(all, t.skip, t.limit);
    forall a, b | 0 <= a < b < |rows|
      ensures !ComesFirst(db.collation, RequestedField(q), q.sort.descending, rows[b], rows[a])
    {
      assert rows[a] == all[from + a] && rows[b] == all[from + b];
      assert !Precedes(db.collation, t.sort, t.descending, all[from + b], all[from + a]);
    }
  }

  /**
   Root rows by one query, everything below by the traversal. The root query is refused or answered; it succeeds when
   no to-one field has two rows.
   */
  method TraverseAndLoad(ghost db: Database, engine: Engine, q: Request)
    returns (reply: Option<seq<Row>>, ok: bool, objects: seq<ResultObject>)
    requires Faithful(db, engine) && Projected(q.root) && NamesKnown(db, q.root) && Keyed(db, q.root)
    requires WellFormedEdges(q.root.edges) && WellFormedSet(q.root.filter)
    ensures reply.Some? <==> SortSelected(q) && FilterKnown(db, q.root)
    ensures reply.Some? ==> RootAnswered(db, q, reply.value) && RowsAsRequested(db, q, reply.value)
    ensures ok <==> reply.Some? && forall i :: 0 <= i < |reply.value| ==> AtMostOne(db, q.root, reply.value[i])
    ensures ok ==> MultiRun(db, q, reply.value, objects)
    ensures ok ==> forall i :: 0 <= i < |objects| ==> ObjectInOrder(db.collation, q.root, objects[i])
  {
    RootTextFits(q);
    RootLegalIff(db, q);
    reply := engine(TextOf([RootQuery(q)]).text, Args([RootQuery(q)]));
    assert Replies(db, TextOf([RootQuery(q)]).text, Args([RootQuery(q)]), reply);
    ok, objects := false, [];
    if reply.Some? {
      RootsAsRequested(db, q, reply.value);
      ok, objects := Resolve(db, engine, q.root, reply.value);
    }
  }

  // ---------------------------------------------------------------- the same roots in the same order

  function Restricted(q: Request, xs: seq<Row>): seq<Row> {
    Map(xs, (x: Row) => Restrict(x, q.root.columns))
  }

  lemma RestrictedStands(q: Request, x: Row)
    ensures StandsFor(q.root, Restrict(x, q.root.columns), x)
  {
  }

  lemma RootsAreSelected(db: Database, q: Request, xs: seq<Row>, x: Row)
    requires WellFormedEdges(q.root.edges) && RootUndotted(q)
    requires Sub(q, BoundRequest(q)) && SelectsRoots(db, BoundRequest(q), xs)
    ensures x in xs <==> x in RowsOf(db, q.root.table) && Selected(db.collation, q.root.filter, x)
  {
    UndottedIsSound(q);
    SubSelectFilters(db, q, x);
    UndottedSelects(db, q, x);
    assert x in xs <==> Keeps(db, BoundRequest(q), x);
  }

  /** The root rows of the two modes: full rows here, their selected columns there, one for one. */
  lemma SameRootSet(db: Database, q: Request, xs: seq<Row>, all: seq<Row>, r: Row)
    requires WellFormedEdges(q.root.edges) && RootUndotted(q)
    requires Sub(q, BoundRequest(q)) && SelectsRoots(db, BoundRequest(q), xs)
    requires TextOf([RootQuery(q)]).ParsedBatch? && Batch.Bindable(TextOf([RootQuery(q)]).text, Args([RootQuery(q)]))
    requires AnswersAll(db, TextOf([RootQuery(q)]).text, Args([RootQuery(q)]), all)
    ensures r in all <==> r in Restricted(q, xs)
  {
    RootTextFits(q);
    var t, args := TextOf([RootQuery(q)]).text, Args([RootQuery(q)]);
    forall x
      ensures Chosen(db, t, args, x) <==> x in xs
    {
      RootChosen(db, q, x);
      RootsAreSelected(db, q, xs, x);
    }
    assert r in all <==> exists x :: x in xs && r == Restrict(x, q.root.columns);
    if x :| x in xs && r == Restrict(x, q.root.columns) {
      MapHas(xs, (x: Row) => Restrict(x, q.root.columns), x);
    }
  }

  lemma KeyOnlySort(q: Request)
    requires SortedByKey(q)
    ensures SortKeys(q) == [OrderKey(Column(RootPath(q), RootId(q)), q.sort.descending)]
  {
  }

  lemma SortAgrees(db: Database, q: Request, r: Row, r': Row)
    requires SortedByKey(q)
    ensures Before(db.collation, SortKeys(q), RootRow(q, r), RootRow(q, r')) <==>
            Precedes(db.collation, RootId(q), q.sort.descending, r, r')
  {
    KeyOnlySort(q);
    assert SortKeys(q)[1..] == [];
  }

  /** Rows with different keys, sorted by key, are strictly sorted. */
  lemma StrictByKey(db: Database, q: Request, rows: seq<Row>)
    requires TotalOrder(db.collation) && SortedByKey(q)
    requires Sorted(db.collation, SortKeys(q), RootRows(q, rows))
    requires forall a, b :: 0 <= a < b < |rows| ==> Col(rows[a], RootId(q)) != Col(rows[b], RootId(q))
    ensures StrictlySorted(db.collation, SortKeys(q), RootRows(q, rows))
  {
    KeyOnlySort(q);
    forall a, b | 0 <= a < b < |rows|
      ensures Before(db.collation, SortKeys(q), RootRows(q, rows)[a], RootRows(q, rows)[b])
    {
      BeforeIsTotal(db.collation, SortKeys(q), RootRow(q, rows[a]), RootRow(q, rows[b]), SortKeys(q)[0]);
    }
  }

  lemma RestrictedSorted(db: Database, q: Request, xs: seq<Row>)
    requires TotalOrder(db.collation) && SortedByKey(q) && UniqueKeys(db, q.root) && q.root.key in q.root.columns
    requires Distinct(xs) && forall x :: x in xs ==> x in RowsOf(db, q.root.table)
    requires Sorted(db.collation, SortKeys(q), RootRows(q, xs))
    ensures StrictlySorted(db.collation, SortKeys(q), RootRows(q, Restricted(q, xs)))
  {
    var rs := Restricted(q, xs);
    forall a, b | 0 <= a < b < |rs|
      ensures Col(rs[a], RootId(q)) != Col(rs[b], RootId(q))
      ensures !Before(db.collation, SortKeys(q), RootRows(q, rs)[b], RootRows(q, rs)[a])
    {
      assert xs[a] in xs && xs[b] in xs;
      SortAgrees(db, q, rs[b], rs[a]);
      SortAgrees(db, q, xs[b], xs[a]);
      assert !Before(db.collation, SortKeys(q), RootRows(q, xs)[b], RootRows(q, xs)[a]);
    }
    StrictByKey(db, q, rs);
  }

  lemma AnsweredSorted(db: Database, q: Request, xs: seq<Row>, all: seq<Row>)
    requires TotalOrder(db.collation) && SortedByKey(q) && UniqueKeys(db, q.root) && q.root.key in q.root.columns
    requires forall x :: x in xs ==> x in RowsOf(db, q.root.table)
    requires Distinct(all) && SortedOn(db.collation, RootId(q), q.sort.descending, all)
    requires forall r :: r in all ==> r in Restricted(q, xs)
    ensures StrictlySorted(db.collation, SortKeys(q), RootRows(q, all))
  {
    forall a, b | 0 <= a < b < |all|
      ensures Col(all[a], RootId(q)) != Col(all[b], RootId(q))
      ensures !Before(db.collation, SortKeys(q), RootRows(q, all)[b], RootRows(q, all)[a])
    {
      assert all[a] in Restricted(q, xs) && all[b] in Restricted(q, xs);
      var i :| 0 <= i < |xs| && Restricted(q, xs)[i] == all[a];
      var k :| 0 <= k < |xs| && Restricted(q, xs)[k] == all[b];
      assert xs[i] in xs && xs[k] in xs && xs[i] != xs[k];
      SortAgrees(db, q, all[b], all[a]);
    }
    StrictByKey(db, q, all);
  }

  /** All answered rows are the selected roots, one for one, in the same order. */
  lemma SameAll(db: Database, q: Request, xs: seq<Row>, all: seq<Row>)
    requires TotalOrder(db.collation) && SortedByKey(q) && UniqueKeys(db, q.root) && q.root.key in q.root.columns
    requires Distinct(xs) && Sorted(db.collation, SortKeys(q), RootRows(q, xs))
    requires forall x :: x in xs ==> x in RowsOf(db, q.root.table)
    requires Distinct(all) && SortedOn(db.collation, RootId(q), q.sort.descending, all)
    requires forall r :: r in all <==> r in Restricted(q, xs)
    ensures all == Restricted(q, xs)
  {
    RestrictedSorted(db, q, xs);
    AnsweredSorted(db, q, xs, all);
    StrictListsEqual(db, q, all, Restricted(q, xs));
  }

  lemma RootsInTable(db: Database, q: Request, xs: seq<Row>)
    requires WellFormedEdges(q.root.edges) && RootUndotted(q)
    requires Sub(q, BoundRequest(q)) && SelectsRoots(db, BoundRequest(q), xs)
    ensures Distinct(xs) && Sorted(db.collation, SortKeys(q), RootRows(q, xs))
    ensures forall x :: x in xs ==> x in RowsOf(db, q.root.table)
  {
    forall x | x in xs
      ensures x in RowsOf(db, q.root.table)
    {
      RootsAreSelected(db, q, xs, x);
    }
  }

  lemma RestrictedPage(q: Request, xs: seq<Row>)
    ensures Slice(Restricted(q, xs), q.skip, q.limit) == Restricted(q, PageOf(q, xs))
  {
  }

  /** Both modes page the same roots in the same order. */
  lemma SameRoots(db: Database, q: Request, xs: seq<Row>, rows: seq<Row>)
    requires WellFormedEdges(q.root.edges) && RootUndotted(q)
    requires TotalOrder(db.collation) && SortedByKey(q) && UniqueKeys(db, q.root) && q.root.key in q.root.columns
    requires Sub(q, BoundRequest(q)) && SelectsRoots(db, BoundRequest(q), xs)
    requires TextOf([RootQuery(q)]).ParsedBatch? && Batch.Bindable(TextOf([RootQuery(q)]).text, Args([RootQuery(q)]))
    requires Batch.Answers(db, TextOf([RootQuery(q)]).text, Args([RootQuery(q)]), rows)
    ensures rows == Restricted(q, PageOf(q, xs))
  {
    RootTextFits(q);
    RootsInTable(db, q, xs);
    var all :| AnswersAll(db, TextOf([RootQuery(q)]).text, Args([RootQuery(q)]), all) &&
               rows == Slice(all, q.skip, q.limit);
    forall r: Row
      ensures r in all <==> r in Restricted(q, xs)
    {
      SameRootSet(db, q, xs, all, r);
    }
    SameAll(db, q, xs, all);
    RestrictedPage(q, xs);
  }

  /** Sorted by its key a page has no ties. */
  lemma KeySortedIsUntied(db: Database, q: Request, xs: seq<Row>)
    requires TotalOrder(db.collation) && SortedByKey(q) && UniqueKeys(db, q.root)
    requires Sub(q, BoundRequest(q)) && SelectsRoots(db, BoundRequest(q), xs)
    ensures Untied(db, q, PageOf(q, xs))
  {
    PageSorted(db, q, BoundRequest(q), xs);
    UntiedIff(db, q, PageOf(q, xs));
  }

  /**
   The two modes agree, whatever the database answers to the statements of either mode: when the multi-query run
   succeeds, the single-query loader returns the same objects in the same order, up to the order of children and up to
   absent, null and empty fields, if and only if no two children of one has-many field have keys of one hash code.
   */
  lemma ModesAgree(
      db: Database, q: Request, xs: seq<Row>, labels: map<string, Column>, js: seq<JoinedRow>,
      root: RowObject, many: set<string>, rows: seq<Row>, objects: seq<ResultObject>)
    requires WellFormedEdges(q.root.edges) && RootUndotted(q)
    requires Projected(q.root) && Keyed(db, q.root) && TotalOrder(db.collation) && SortedByKey(q)
    requires LoaderReady(q, labels, root, many) && SingleMode.Answers(db, q, xs, labels, js)
    requires MultiRun(db, q, rows, objects)
    ensures var trees := LoadedTrees(AnswerOf(db, q, PageOf(q, xs), labels, js, root, many));
            trees == Map(objects, (o: ResultObject) => TreeOf(q.root, o)) <==>
              forall x :: x in PageOf(q, xs) ==> SiblingsApart(db, q.root, RootPath(q), x)
  {
    var page := PageOf(q, xs);
    RootTextFits(q);
    SameRoots(db, q, xs, rows);
    forall i | 0 <= i < |page|
      ensures AtMostOne(db, q.root, page[i]) && TreeOf(q.root, objects[i]) == Build(db, q.root, page[i])
    {
      RestrictedStands(q, page[i]);
      StandInBuildsSame(db, q.root, rows[i], page[i]);
    }
    KeySortedIsUntied(db, q, xs);
    SingleModeBuilds(db, q, xs, labels, js, root, many);
    assert Map(objects, (o: ResultObject) => TreeOf(q.root, o)) == BuiltTrees(db, q.root, page);
    assert Loadable(db, q, page) <==> forall x :: x in page ==> SiblingsApart(db, q.root, RootPath(q), x);
  }
}
