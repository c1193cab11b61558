/** The single-query mode as a whole: compile, execute, read the labels, rebuild the objects. */
module EndToEnd {
  import opened Truth
  import opened Filters
  import opened Seqs
  import opened Sql
  import opened Query
  import opened Ordering
  import opened Statement
  import opened Paging
  import opened Loader
  import opened Rebuild
  import opened SingleMode
  import opened Asked
  import opened AskedRoots
  import opened AliasCache
  import opened SimpleParser
  import opened Labels
  import opened ColumnTree
  import opened ColumnLaws
  import opened LabelRoundTrip
  import opened LoaderHeap
  import opened Legality
  import M = Multi
  import Agreement

  /** What comes back over the connection: the column labels and the rows. */
  datatype ResultSet = ResultSet(labels: seq<string>, rows: seq<ResultRow>)

  /** A database executes a text with its parameters and labelled columns, or refuses it. */
  type SingleEngine = (Text, seq<Operand>, map<string, Column>) -> Option<ResultSet>

  /**
   One answer of the database to a paged text, read off the text alone: the sub-select's sorted roots, the rows of the
   outer SELECT over their page, and of these what the outer SELECT's own page leaves.
   */
  ghost predicate Executed(
    db: Database, sub: BoundSelect, outer: BoundSelect, labels: map<string, Column>, rs: ResultSet,
    xs: seq<Row>, all: seq<JoinedRow>)
    requires Fitting(sub) && Fitting(outer)
  {
    SelectsRoots(db, sub, xs) && SelectsRows(db, outer, Slice(xs, sub.skip, sub.limit), labels, all) &&
    Distinct(ResultRows(labels, all)) && rs.rows == ResultRows(labels, Slice(all, outer.skip, outer.limit))
  }

  ghost predicate RepliesTo(
    db: Database, text: Text, ps: seq<Operand>, labels: map<string, Column>, reply: Option<ResultSet>)
    requires text.Paged? && |ps| == TextHoles(text)
  {
    (reply.Some? <==> Legal(db, text, labels)) &&
    (reply.Some? ==>
       var rs, s := reply.value, BindText(text, ps);
       Distinct(rs.labels) && (forall l :: l in rs.labels <==> l in labels) &&
       (s[0].from == s[1].from && Fitting(s[0]) && Fitting(s[1]) ==>
          exists xs, all :: Executed(db, s[0], s[1], labels, rs, xs, all)))
  }

  /** Every paged text that is legal is answered as SQL says, whatever order SQL leaves open; others are refused. */
  ghost predicate FaithfulSingle(db: Database, engine: SingleEngine) {
    forall text: Text, ps: seq<Operand>, labels: map<string, Column> ::
      text.Paged? && |ps| == TextHoles(text) ==> RepliesTo(db, text, ps, labels, engine(text, ps, labels))
  }

  /** The tree of types the loader reads from the labels of a request. */
  function RootRead(q: Request, labels: seq<string>, paths: seq<string>): RowObject
    requires Readable(Reversed(OrderOf(q)), labels) && AllKeyed(TypesRead(q, labels), paths) && q.root.table in paths
  {
    Assemble(TypesRead(q, labels), paths, q.root.table)
  }

  /** The paths of the types, in some order. */
  method PathsOfTypes(types: map<string, TypeColumns>) returns (paths: seq<string>)
    ensures Distinct(paths) && forall p :: p in paths <==> p in types
  {
    var left := types.Keys;
    paths := [];
    while left != {}
      invariant Distinct(paths) && left <= types.Keys && forall p :: p in paths <==> p in types && p !in left
      decreases |left|
    {
      var p :| p in left;
      left := left - {p};
      paths := paths + [p];
    }
  }

  /** The objects of the loader are these trees. */
  ghost predicate Returns(loader: RDBMSSimpleLoader, st: State, root: RowObject, trees: seq<Tree>)
    requires loader.Shows(st)
    reads loader, loader.objects
  {
    |loader.resultTreeList| == |trees| &&
    forall i :: 0 <= i < |trees| ==> Followed(loader.objects, root, loader.resultTreeList[i]) == trees[i]
  }

  lemma LoaderIsReady(q: Request, labels: seq<string>, paths: seq<string>)
    requires Proper(q) && Printed(q, labels)
    requires Readable(Reversed(OrderOf(q)), labels) ==> Lists(q, labels, paths)
    ensures Readable(Reversed(OrderOf(q)), labels) && AllKeyed(TypesRead(q, labels), paths) && q.root.table in paths
    ensures LoaderReady(q, LabelsOf(q), RootRead(q, labels, paths), ManyOf(q))
  {
    LabelsRoundTrip(q, labels, paths);
  }

  /** The heap holds the loaded trees, reference by reference. */
  lemma HeapIsLoaded(loader: RDBMSSimpleLoader, a: Answer, trees: seq<Tree>)
    requires loader.Shows(ParseRows(a.root, a.rows, a.many))
    ensures Returns(loader, ParseRows(a.root, a.rows, a.many), a.root, trees) <==> LoadedTrees(a) == trees
  {
    var st, loaded := ParseRows(a.root, a.rows, a.many), LoadedTrees(a);
    assert |loader.resultTreeList| == |st.roots| == |loaded|;
    forall i | 0 <= i < |loaded|
      ensures Followed(loader.objects, a.root, loader.resultTreeList[i]) == loaded[i]
    {
      var o := loader.resultTreeList[i];
      assert o.hash == Hashes(loader.resultTreeList)[i] == st.roots[i];
      FollowedIsReified(loader, st, a.root, o);
      assert loaded[i] == Reify(Cache(a), a.root, st.roots[i]);
    }
  }

  lemma TextIsBoundRequest(q: Request)
    requires Sound(q) && !q.aggregate
    ensures Sub(q, BoundRequest(q))
    ensures var c := CompileRequest(q);
            c.Compiled? && c.text.Paged? && |c.parameters| == TextHoles(c.text) &&
            BindText(c.text, c.parameters) == [BoundRequest(q), OuterOf(q, BoundRequest(q))]
  {
    BoundFits(q);
    PlanningSucceeds(q);
    Aligned(q);
  }

  /** The outer SELECT has no page of its own: what it selects is what comes back. */
  lemma ExecutedAnswers(
      db: Database, q: Request, labels: map<string, Column>, rs: ResultSet, xs: seq<Row>, js: seq<JoinedRow>)
    requires Sub(q, BoundRequest(q))
    requires Executed(db, BoundRequest(q), OuterOf(q, BoundRequest(q)), labels, rs, xs, js)
    ensures SingleMode.Answers(db, q, xs, labels, js) && rs.rows == ResultRows(labels, js)
  {
    assert Slice(js, None, None) == js;
  }

  /** The compiled text is refused, or answered with the rows of the outer SELECT over the page of the sub-select. */
  lemma EngineAnswers(db: Database, engine: SingleEngine, q: Request, c: Compiled)
    returns (xs: seq<Row>, js: seq<JoinedRow>)
    requires FaithfulSingle(db, engine) && Proper(q) && Sound(q) && !q.aggregate && c == CompileRequest(q)
    ensures c.Compiled?
    ensures var labels := LabelsOf(q);
            var reply := engine(c.text, c.parameters, labels);
            (reply.Some? <==> Takes(db, q)) &&
            (reply.Some? ==>
               Distinct(reply.value.labels) && (forall l :: l in reply.value.labels <==> l in labels) &&
               SingleMode.Answers(db, q, xs, labels, js) && reply.value.rows == ResultRows(labels, js))
  {
    TextIsBoundRequest(q);
    LegalIff(db, q);
    var sub, outer, labels := BoundRequest(q), OuterOf(q, BoundRequest(q)), LabelsOf(q);
    var reply := engine(c.text, c.parameters, labels);
    assert RepliesTo(db, c.text, c.parameters, labels, reply);
    xs, js := [], [];
    if reply.Some? {
      assert BindText(c.text, c.parameters)[0] == sub && BindText(c.text, c.parameters)[1] == outer && Fitting(outer);
      xs, js :| Executed(db, sub, outer, labels, reply.value, xs, js);
      ExecutedAnswers(db, q, labels, reply.value, xs, js);
    }
  }

  /** The statement of a request, compiled and executed. */
  method Fetch(ghost db: Database, engine: SingleEngine, q: Request)
    returns (
      compiled: Compiled, aliasCache: SQLAliasCache, reply: Option<ResultSet>, ghost xs: seq<Row>,
      ghost js: seq<JoinedRow>)
    requires FaithfulSingle(db, engine) && Proper(q) && !q.aggregate && (CompileRequest(q).Compiled? ==> Sound(q))
    ensures compiled == CompileRequest(q)
    ensures compiled.Compiled? ==>
              aliasCache.Valid() && aliasCache.order == OrderOf(q) && aliasCache.tablePathKey == KeysOf(q)
    ensures reply.Some? <==> compiled.Compiled? && Takes(db, q)
    ensures reply.Some? ==>
              Printed(q, reply.value.labels) && SingleMode.Answers(db, q, xs, LabelsOf(q), js) &&
              reply.value.rows == ResultRows(LabelsOf(q), js)
  {
    var parser := new SQLSimpleParser();
    compiled := parser.Parse(q);
    aliasCache, reply, xs, js := parser.aliasCache, None, [], [];
    if compiled.Compiled? {
      xs, js := EngineAnswers(db, engine, q, compiled);
      var projector := new Projector();
      projector.Add(aliasCache, q.root, RootPath(q));
      assert projector.columns == LabelsOf(q);
      reply := engine(compiled.text, compiled.parameters, projector.columns);
    }
  }

  /**
   The roots of a result are the page of the selected roots, sorted; in the order of the page when no two of its roots
   are tied. What is selected is what the request asks for when it is read as written.
   */
  ghost predicate PageShown(db: Database, q: Request, xs: seq<Row>, shown: seq<Row>) {
    Distinct(xs) && (forall x :: x in xs <==> RootSelected(db, q, x)) && (IsReadAsWritten(q) ==> AllAsked(db, q, xs)) &&
    Sorted(db.collation, SortKeys(q), RootRows(q, xs)) && AsRequested(db, q, xs) &&
    Distinct(shown) && (forall x :: x in shown <==> x in PageOf(q, xs)) &&
    Sorted(db.collation, SortKeys(q), RootRows(q, shown)) && AsRequested(db, q, shown) &&
    (TotalOrder(db.collation) && Untied(db, q, PageOf(q, xs)) ==> shown == PageOf(q, xs))
  }

  lemma PageIsShownBy(
      db: Database, q: Request, xs: seq<Row>, labels: map<string, Column>, js: seq<JoinedRow>,
      root: RowObject, many: set<string>)
    requires Sound(q) && SingleMode.Answers(db, q, xs, labels, js) && LoaderReady(q, labels, root, many)
    requires Keyed(db, q.root)
    ensures PageShown(db, q, xs, FirstRoots(q, js))
  {
    RootKeyShown(q, labels, root, many);
    Pagination(db, q, BoundRequest(q), xs, labels, js);
    SortedAsRequested(db, q, xs);
    forall x
      ensures x in xs <==> RootSelected(db, q, x)
    {
      SubSelectFilters(db, q, x);
      assert x in xs <==> Keeps(db, BoundRequest(q), x);
    }
    if IsReadAsWritten(q) {
      RootsAreAsked(db, q, xs);
    }
  }

  /** The loader with its objects, the tree of types it read, and the rows it was given. */
  datatype Loaded = Loaded(loader: RDBMSSimpleLoader, root: RowObject, rows: seq<ResultRow>)

  datatype Outcome = NotCompiled(error: Error) | Refused | Delivered(loaded: Loaded)

  /**
   What is delivered: the page of the selected roots, and for each the object its kept rows show, exactly when the
   loader can hold them all. With a root filter of own columns these are the objects of nested loops; of a request that
   is read as written they are the objects it asks for.
   */
  ghost predicate Delivers(db: Database, q: Request, r: Loaded, xs: seq<Row>, js: seq<JoinedRow>)
    requires r.loader.Shows(ParseRows(r.root, r.rows, ManyOf(q)))
    reads r.loader, r.loader.objects
  {
    var st, roots := ParseRows(r.root, r.rows, ManyOf(q)), FirstRoots(q, js);
    var a := AnswerOf(db, q, PageOf(q, xs), LabelsOf(q), js, r.root, ManyOf(q));
    SingleMode.Answers(db, q, xs, LabelsOf(q), js) && r.rows == ResultRows(LabelsOf(q), js) &&
    LoaderReady(q, LabelsOf(q), r.root, ManyOf(q)) && PageShown(db, q, xs, roots) &&
    Returns(r.loader, st, r.root, LoadedTrees(a)) &&
    (Returns(r.loader, st, r.root, ShownTrees(a, q.root, roots)) <==>
     forall x :: x in PageOf(q, xs) ==> Holds(a, q.root, RootPath(q), x)) &&
    (RootUndotted(q) ==>
       (Returns(r.loader, st, r.root, BuiltTrees(db, q.root, roots)) <==> Loadable(db, q, PageOf(q, xs)))) &&
    (IsReadAsWritten(q) ==> BuiltTrees(db, q.root, roots) == AskedTrees(db, q.root, roots))
  }

  /**
   A request answered by one query, from the selection to the linked objects. It is refused exactly when the database
   does not take its statement.
   */
  method TraverseSingle(ghost db: Database, engine: SingleEngine, q: Request)
    returns (r: Outcome, ghost xs: seq<Row>, ghost js: seq<JoinedRow>)
    requires FaithfulSingle(db, engine) && Proper(q) && !q.aggregate && Keyed(db, q.root)
    requires CompileRequest(q).Compiled? ==> Sound(q)
    ensures r.NotCompiled? <==> CompileRequest(q).Rejected?
    ensures r.NotCompiled? ==> CompileRequest(q) == Rejected(r.error)
    ensures r.Delivered? <==> CompileRequest(q).Compiled? && Takes(db, q)
    ensures r.Delivered? ==> r.loaded.loader.Shows(ParseRows(r.loaded.root, r.loaded.rows, ManyOf(q)))
    ensures r.Delivered? ==> Delivers(db, q, r.loaded, xs, js)
  {
    var compiled, aliasCache, reply;
    compiled, aliasCache, reply, xs, js := Fetch(db, engine, q);
    if compiled.Rejected? {
      return NotCompiled(compiled.error), xs, js;
    }
    if reply.None? {
      return Refused, xs, js;
    }
    var resultSet := reply.value;
    PrintedReadable(q, resultSet.labels);
    var read := ParseColumns(resultSet.labels, aliasCache);
    var paths := PathsOfTypes(TypesRead(q, resultSet.labels));
    LoaderIsReady(q, resultSet.labels, paths);
    OrderIs(q);
    var root := Assemble(read.types, paths, read.root);
    var loader := new RDBMSSimpleLoader();
    var hasMany := aliasCache.hasMany;
    loader.ResultSetToList(root, resultSet.rows, set n | n in hasMany && hasMany[n]);
    LoadedShows(db, q, xs, js, root, loader);
    if AllReadAsWritten(q.root.edges) {
      BuiltAreAsked(db, q.root, FirstRoots(q, js));
    }
    r := Delivered(Loaded(loader, root, resultSet.rows));
  }

  lemma LoadedShows(
      db: Database, q: Request, xs: seq<Row>, js: seq<JoinedRow>, root: RowObject, loader: RDBMSSimpleLoader)
    requires Proper(q) && Sound(q) && Keyed(db, q.root) && LoaderReady(q, LabelsOf(q), root, ManyOf(q))
    requires SingleMode.Answers(db, q, xs, LabelsOf(q), js)
    requires loader.Shows(ParseRows(root, ResultRows(LabelsOf(q), js), ManyOf(q)))
    ensures PageShown(db, q, xs, FirstRoots(q, js))
    ensures var a := AnswerOf(db, q, PageOf(q, xs), LabelsOf(q), js, root, ManyOf(q));
            Returns(loader, ParseRows(root, ResultRows(LabelsOf(q), js), ManyOf(q)), root, LoadedTrees(a))
    ensures var a, st := AnswerOf(db, q, PageOf(q, xs), LabelsOf(q), js, root, ManyOf(q)),
                         ParseRows(root, ResultRows(LabelsOf(q), js), ManyOf(q));
            (Returns(loader, st, root, ShownTrees(a, q.root, FirstRoots(q, js))) <==>
             forall x :: x in PageOf(q, xs) ==> Holds(a, q.root, RootPath(q), x)) &&
            (RootUndotted(q) ==>
               (Returns(loader, st, root, BuiltTrees(db, q.root, FirstRoots(q, js))) <==>
                Loadable(db, q, PageOf(q, xs))))
  {
    var a := AnswerOf(db, q, PageOf(q, xs), LabelsOf(q), js, root, ManyOf(q));
    PageIsShownBy(db, q, xs, LabelsOf(q), js, root, ManyOf(q));
    HeapIsLoaded(loader, a, LoadedTrees(a));
    HeapIsLoaded(loader, a, ShownTrees(a, q.root, FirstRoots(q, js)));
    HeapIsLoaded(loader, a, BuiltTrees(db, q.root, FirstRoots(q, js)));
    SingleModeShows(db, q, xs, LabelsOf(q), js, root, ManyOf(q));
    if RootUndotted(q) {
      SingleModeBuilds(db, q, xs, LabelsOf(q), js, root, ManyOf(q));
    }
  }

  /** The two modes agree on every request: what the single-query mode reads from its own labels is enough. */
  lemma CompiledModesAgree(
      db: Database, q: Request, xs: seq<Row>, labels: seq<string>, paths: seq<string>, js: seq<JoinedRow>,
      rows: seq<Row>, objects: seq<M.ResultObject>)
    requires Proper(q) && RootUndotted(q) && Printed(q, labels)
    requires Readable(Reversed(OrderOf(q)), labels) && Lists(q, labels, paths)
    requires M.Projected(q.root) && Keyed(db, q.root) && TotalOrder(db.collation) && Agreement.SortedByKey(q)
    requires SingleMode.Answers(db, q, xs, LabelsOf(q), js) && Agreement.MultiRun(db, q, rows, objects)
    ensures AllKeyed(TypesRead(q, labels), paths) && q.root.table in paths
    ensures var root := RootRead(q, labels, paths);
            var trees := LoadedTrees(AnswerOf(db, q, PageOf(q, xs), LabelsOf(q), js, root, ManyOf(q)));
            trees == Map(objects, (o: M.ResultObject) => M.TreeOf(q.root, o)) <==>
              forall x :: x in PageOf(q, xs) ==> SiblingsApart(db, q.root, RootPath(q), x)
  {
    LoaderIsReady(q, labels, paths);
    Agreement.ModesAgree(
      db, q, xs, LabelsOf(q), js, RootRead(q, labels, paths), ManyOf(q), rows, objects);
  }
}
