/** The single-query mode from request to objects: compile, bind, execute, fold the rows. */
module SingleMode {
  import opened Truth
  import opened Names
  import opened Filters
  import opened FilterLaws
  import opened Seqs
  import opened Sql
  import opened Query
  import opened Ordering
  import opened Statement
  import opened Paging
  import opened Loader
  import opened LoaderFold
  import opened LoaderLaws
  import opened Rebuild

  // ---------------------------------------------------------------- the bound request

  /** The sub-select a request stands for, its parameters in place. */
  function BoundRequest(q: Request): BoundSelect {
    var (plan, root) := Planning(q);
    Intention(q, if plan.Plan? then plan.joins else [], root)
  }

  /** The root filter and the filters of all nested types are well formed; the root filter names joined tables. */
  predicate Sound(q: Request) {
    WellFormedEdges(q.root.edges) && RootWellFormed(q)
  }

  lemma BoundFits(q: Request)
    requires Sound(q)
    ensures Sub(q, BoundRequest(q))
    ensures PlanEdges(q.root.edges, RootPath(q)).Plan? &&
            BoundRequest(q).joins == PlanEdges(q.root.edges, RootPath(q)).joins
  {
    PlanningSucceeds(q);
  }

  // ---------------------------------------------------------------- the roots of a request

  /** The joined rows of one root. */
  ghost predicate JoinedFrom(db: Database, q: Request, x: Row, j: JoinedRow) {
    AllFit(BoundRequest(q).joins) && j in JoinAll(db, [RootRow(q, x)], BoundRequest(q).joins)
  }

  /** A root is selected when one of its joined rows meets the root filter as compiled, whatever tables it names. */
  ghost predicate RootSelected(db: Database, q: Request, x: Row) {
    x in RowsOf(db, q.root.table) &&
    (q.root.filter.Some? ==> exists j :: JoinedFrom(db, q, x, j) && RootFilterHolds(db, q, j))
  }

  predicate RootFilterHolds(db: Database, q: Request, j: JoinedRow) {
    q.root.filter.Some? ==> Meaning(DropLone(q.root.filter.value), RootPath(q), db.collation, EnvOf(j)) == Yes
  }

  /** The compiled WHERE clause is the root filter. */
  lemma WhereIsRootFilter(db: Database, q: Request, j: JoinedRow)
    requires Sound(q)
    ensures Fitting(BoundRequest(q))
    ensures FilterHolds(db, BoundRequest(q).where_, BoundRequest(q).args, EnvOf(j)) <==> RootFilterHolds(db, q, j)
  {
    BoundFits(q);
    if q.root.filter.Some? {
      EmittedMeaning(q.root.filter.value, RootPath(q), Some({RootPath(q)} + Paths(Planning(q).0.joins)), db.collation,
                     EnvOf(j));
    }
  }

  /** The sub-select keeps exactly the selected roots. */
  lemma SubSelectFilters(db: Database, q: Request, x: Row)
    requires Sound(q)
    ensures Fitting(BoundRequest(q))
    ensures Keeps(db, BoundRequest(q), x) <==> RootSelected(db, q, x)
  {
    BoundFits(q);
    var s, table := BoundRequest(q), RowsOf(db, q.root.table);
    assert RootRows(q, [x]) == [RootRow(q, x)];
    if Keeps(db, s, x) {
      var j :| Kept(db, s, table, j) && RootPath(q) in j && j[RootPath(q)] == Some(x);
      KeptByRoot(db, q, s, table, j);
      WhereIsRootFilter(db, q, j);
      assert JoinedFrom(db, q, x, j);
    }
    if RootSelected(db, q, x) {
      var j := JoinAllExtends(db, [RootRow(q, x)], s.joins, {RootPath(q)}, RootRow(q, x));
      if q.root.filter.Some? {
        j :| JoinedFrom(db, q, x, j) && RootFilterHolds(db, q, j);
      }
      RootShown(db, q, s, x, j);
      WhereIsRootFilter(db, q, j);
      KeptByRoot(db, q, s, table, j);
    }
  }

  // ---------------------------------------------------------------- a root filter that reads the root only

  predicate RootFilterName(q: Request, f: Filter) {
    f.path == [] || f.path == RootPath(q)
  }

  predicate RootUndotted(q: Request) {
    q.root.filter.Some? ==>
      WellFormed(q.root.filter.value) && ForFilters(q.root.filter.value, (f: Filter) => RootFilterName(q, f))
  }

  lemma UndottedIsSound(q: Request)
    requires WellFormedEdges(q.root.edges) && RootUndotted(q)
    ensures Sound(q)
  {
    PlanEdgesShape(q.root.edges, RootPath(q), {RootPath(q)});
    if q.root.filter.Some? {
      var aliases := Some({RootPath(q)} + Paths(PlanEdges(q.root.edges, RootPath(q)).joins));
      var named := (f: Filter) => RootFilterName(q, f);
      ForFiltersWeaken(q.root.filter.value, named, PlacedIn(RootPath(q), aliases));
    }
  }

  /** On a joined row such a filter asks of the root row what `Selected` says. */
  lemma RootFilterReadsRoot(db: Database, q: Request, x: Row, j: JoinedRow)
    requires RootUndotted(q) && RootPath(q) in j && j[RootPath(q)] == Some(x)
    ensures RootFilterHolds(db, q, j) <==> Selected(db.collation, q.root.filter, x)
  {
    if q.root.filter.Some? {
      var s := q.root.filter.value;
      var named := (f: Filter) => RootFilterName(q, f);
      var here := Reading(RootPath(q), Some({RootPath(q)}), EnvOf(j), RootPath(q), EnvOf(j));
      var row := here.(origin := [], world := RowEnv(x));
      ForFiltersWeaken(s, named, AlikeIn(here));
      ForFiltersWeaken(s, named, AlikeIn(row));
      EmittedReads(s, here, db.collation);
      EmittedReads(s, row, db.collation);
    }
  }

  lemma UndottedSelects(db: Database, q: Request, x: Row)
    requires WellFormedEdges(q.root.edges) && RootUndotted(q)
    ensures RootSelected(db, q, x) <==> x in RowsOf(db, q.root.table) && Selected(db.collation, q.root.filter, x)
  {
    UndottedIsSound(q);
    BoundFits(q);
    var s := BoundRequest(q);
    var j := JoinAllExtends(db, [RootRow(q, x)], s.joins, {RootPath(q)}, RootRow(q, x));
    assert JoinedFrom(db, q, x, j);
    forall i | JoinedFrom(db, q, x, i)
      ensures RootFilterHolds(db, q, i) <==> Selected(db.collation, q.root.filter, x)
    {
      RootShown(db, q, s, x, i);
      RootFilterReadsRoot(db, q, x, i);
    }
  }

  // ---------------------------------------------------------------- the answer as the loader sees it

  /** What the loader is given for a page: the shown rows and the type tree of the labels. */
  function AnswerOf(
    db: Database, q: Request, page: seq<Row>, labels: map<string, Column>, js: seq<JoinedRow>,
    root: RowObject, many: set<string>): Answer
  {
    var s := BoundRequest(q);
    Answer(db, RootRows(q, page), s.joins, s.where_, s.args, RootPath(q), labels, many, root, ResultRows(labels, js))
  }

  /** The objects the loader returns, read as trees. */
  function LoadedTrees(a: Answer): seq<Tree> {
    Map(ParseRows(a.root, a.rows, a.many).roots, (k: string) => Reify(Cache(a), a.root, k))
  }

  function BuiltTrees(db: Database, n: Node, xs: seq<Row>): seq<Tree> {
    Map(xs, (x: Row) => Build(db, n, x))
  }

  ghost function ShownTrees(a: Answer, n: Node, xs: seq<Row>): seq<Tree> {
    Map(xs, (x: Row) => BuildShown(a, n, a.rootPath, x))
  }

  /** The type tree mirrors the selection. */
  ghost predicate LoaderReady(q: Request, labels: map<string, Column>, root: RowObject, many: set<string>) {
    Mirrors(root, q.root, RootPath(q), labels, many) && Clean(root) && AllApart(root)
  }

  lemma RootKeyShown(q: Request, labels: map<string, Column>, root: RowObject, many: set<string>)
    requires Mirrors(root, q.root, RootPath(q), labels, many)
    ensures ShowsRootKey(q, labels)
  {
    assert labels[root.key.columnLabel] in labels.Values;
  }

  /** The database has answered both SELECTs of the request. */
  ghost predicate Answers(db: Database, q: Request, xs: seq<Row>, labels: map<string, Column>, js: seq<JoinedRow>) {
    PageAnswered(db, q, BoundRequest(q), xs, labels, js)
  }

  lemma KeptIsKept(
      db: Database, q: Request, page: seq<Row>, labels: map<string, Column>, js: seq<JoinedRow>,
      root: RowObject, many: set<string>, j: JoinedRow)
    requires Sub(q, BoundRequest(q))
    ensures IsKept(AnswerOf(db, q, page, labels, js, root, many), j) <==> Kept(db, OuterOf(q, BoundRequest(q)), page, j)
  {
  }

  lemma IsAnswered(
      db: Database, q: Request, xs: seq<Row>, labels: map<string, Column>, js: seq<JoinedRow>,
      root: RowObject, many: set<string>)
    requires Answers(db, q, xs, labels, js) && LoaderReady(q, labels, root, many)
    ensures Answered(AnswerOf(db, q, PageOf(q, xs), labels, js, root, many))
  {
    var page := PageOf(q, xs);
    var a := AnswerOf(db, q, page, labels, js, root, many);
    forall row | row in a.rows
      ensures exists j :: IsKept(a, j) && row == Project(labels, j)
    {
      var k :| 0 <= k < |js| && ResultRows(labels, js)[k] == row;
      KeptIsKept(db, q, page, labels, js, root, many, js[k]);
      assert js[k] in js && IsKept(a, js[k]);
    }
    forall j | IsKept(a, j)
      ensures Project(labels, j) in a.rows
    {
      KeptIsKept(db, q, page, labels, js, root, many, j);
    }
    assert forall j :: j in a.base ==> exists x :: x in page && j == RootRow(q, x) by {
      forall j | j in a.base
        ensures exists x :: x in page && j == RootRow(q, x)
      {
        RootRowsMembers(q, page, j);
      }
    }
  }

  /** Every joined row over a page shows one of its roots. */
  lemma JoinedShowsRoot(
      db: Database, q: Request, xs: seq<Row>, labels: map<string, Column>, js: seq<JoinedRow>,
      root: RowObject, many: set<string>, j: JoinedRow)
    requires Answers(db, q, xs, labels, js) && IsJoined(AnswerOf(db, q, PageOf(q, xs), labels, js, root, many), j)
    ensures RootPath(q) in j && j[RootPath(q)].Some? && j[RootPath(q)].value in PageOf(q, xs)
    ensures JoinedFrom(db, q, j[RootPath(q)].value, j) && j[RootPath(q)].value in RowsOf(db, q.root.table)
  {
    var page := PageOf(q, xs);
    var x := StemsFromRoot(db, q, BoundRequest(q), page, j);
    assert RootRows(q, [x]) == [RootRow(q, x)];
    RootIsKept(db, q, BoundRequest(q), xs, x);
  }

  lemma RootIsVisited(root: RowObject, rows: seq<ResultRow>)
    requires Clean(root)
    ensures forall row :: row in rows && KeyOf(root, row).Some? ==>
              KeyOf(root, row).value in Visited(root, row) && Visited(root, row)[KeyOf(root, row).value] == root
  {
  }

  lemma IsAtRoot(
      db: Database, q: Request, xs: seq<Row>, labels: map<string, Column>, js: seq<JoinedRow>,
      root: RowObject, many: set<string>)
    requires Sound(q) && Answers(db, q, xs, labels, js) && LoaderReady(q, labels, root, many) && Keyed(db, q.root)
    requires Answered(AnswerOf(db, q, PageOf(q, xs), labels, js, root, many))
    ensures At(AnswerOf(db, q, PageOf(q, xs), labels, js, root, many), root, q.root, RootPath(q))
  {
    var a := AnswerOf(db, q, PageOf(q, xs), labels, js, root, many);
    BoundFits(q);
    RootIsVisited(root, a.rows);
    forall j: JoinedRow | IsKept(a, j)
      ensures RootPath(q) in j && (j[RootPath(q)].Some? ==> j[RootPath(q)].value in RowsOf(db, q.root.table))
    {
      JoinedShowsRoot(db, q, xs, labels, js, root, many, j);
    }
  }

  /** When the root filter reads the root only, no joined row of a selected root is dropped. */
  lemma UndottedIsWhole(
      db: Database, q: Request, xs: seq<Row>, labels: map<string, Column>, js: seq<JoinedRow>,
      root: RowObject, many: set<string>)
    requires WellFormedEdges(q.root.edges) && RootUndotted(q) && Answers(db, q, xs, labels, js)
    ensures Whole(AnswerOf(db, q, PageOf(q, xs), labels, js, root, many))
  {
    var page := PageOf(q, xs);
    var a := AnswerOf(db, q, page, labels, js, root, many);
    UndottedIsSound(q);
    forall j: JoinedRow | IsJoined(a, j)
      ensures IsKept(a, j)
    {
      JoinedShowsRoot(db, q, xs, labels, js, root, many, j);
      var x: Row := j[RootPath(q)].value;
      RootIsKept(db, q, BoundRequest(q), xs, x);
      SubSelectFilters(db, q, x);
      UndottedSelects(db, q, x);
      RootFilterReadsRoot(db, q, x, j);
      WhereIsRootFilter(db, q, j);
    }
  }

  // ---------------------------------------------------------------- the result list

  lemma KeysOfRootsDiffer(db: Database, n: Node, p: Path, x: Row, y: Row)
    requires UniqueKeys(db, n) && x in RowsOf(db, n.table) && y in RowsOf(db, n.table)
    requires Plain(Dotted(p), n.key) && NodeKey(n, p, x) == NodeKey(n, p, y)
    ensures x == y
  {
    CacheKeyIsInjective(Dotted(p), n.key, Col(x, n.key).text, Dotted(p), n.key, Col(y, n.key).text);
  }

  predicate RootsIn(db: Database, q: Request, js: seq<JoinedRow>) {
    forall j: JoinedRow :: j in js ==>
      RootPath(q) in j && j[RootPath(q)].Some? && RootOf(q, j) in RowsOf(db, q.root.table)
  }

  /** A root is among roots iff its key is among their keys. */
  lemma RootKeyIn(db: Database, n: Node, p: Path, before: seq<Row>, x: Row)
    requires UniqueKeys(db, n) && Plain(Dotted(p), n.key)
    requires x in RowsOf(db, n.table) && forall y :: y in before ==> y in RowsOf(db, n.table)
    ensures NodeKey(n, p, x) in Map(before, (y: Row) => NodeKey(n, p, y)) <==> x in before
  {
    var key := (y: Row) => NodeKey(n, p, y);
    if key(x) in Map(before, key) {
      var i :| 0 <= i < |before| && Map(before, key)[i] == key(x);
      assert before[i] in before;
      KeysOfRootsDiffer(db, n, p, before[i], x);
    }
    MapHas(before, key, x);
  }

  lemma MapSnoc(xs: seq<Row>, x: Row, key: Row -> string)
    ensures Map(xs + [x], key) == Map(xs, key) + [key(x)]
  {
  }

  lemma LastRowKey(
      q: Request, labels: map<string, Column>, last: JoinedRow, root: RowObject, many: set<string>)
    requires Mirrors(root, q.root, RootPath(q), labels, many) && RootPath(q) in last && last[RootPath(q)].Some?
    requires Col(RootOf(q, last), q.root.key).Val?
    ensures KeyOf(root, Project(labels, last)) == Some(NodeKey(q.root, RootPath(q), RootOf(q, last)))
  {
    assert Get(Project(labels, last), root.key.columnLabel) == ColumnOf(last, Column(RootPath(q), q.root.key));
  }

  lemma RootsAreInTable(db: Database, q: Request, js: seq<JoinedRow>)
    requires RootsIn(db, q, js)
    ensures forall x :: x in FirstRoots(q, js) ==> x in RowsOf(db, q.root.table)
  {
  }

  /** The root keys of the result rows are the keys of the roots of the joined rows, in the same order. */
  lemma {:induction false} RootKeysAreRoots(
      db: Database, q: Request, labels: map<string, Column>, js: seq<JoinedRow>, root: RowObject, many: set<string>)
    requires UniqueKeys(db, q.root) && Clean(root) && Mirrors(root, q.root, RootPath(q), labels, many)
    requires RootsIn(db, q, js)
    ensures RootKeys(root, ResultRows(labels, js)) ==
              Map(FirstRoots(q, js), (x: Row) => NodeKey(q.root, RootPath(q), x))
    decreases js
  {
    var rows := ResultRows(labels, js);
    if js != [] {
      var init, last := js[..|js| - 1], js[|js| - 1];
      assert last in js && RootsIn(db, q, init);
      RootKeysAreRoots(db, q, labels, init, root, many);
      assert rows[..|rows| - 1] == ResultRows(labels, init) && rows[|rows| - 1] == Project(labels, last);
      LastRowKey(q, labels, last, root, many);
      RootsAreInTable(db, q, init);
      RootKeyIn(db, q.root, RootPath(q), FirstRoots(q, init), RootOf(q, last));
      MapSnoc(FirstRoots(q, init), RootOf(q, last), (x: Row) => NodeKey(q.root, RootPath(q), x));
    }
  }

  lemma RootIsRebuilt(
      db: Database, q: Request, xs: seq<Row>, labels: map<string, Column>, js: seq<JoinedRow>,
      root: RowObject, many: set<string>, x: Row)
    requires Answers(db, q, xs, labels, js) && x in PageOf(q, xs)
    requires var a := AnswerOf(db, q, PageOf(q, xs), labels, js, root, many);
             Answered(a) && At(a, root, q.root, RootPath(q))
    ensures var a := AnswerOf(db, q, PageOf(q, xs), labels, js, root, many);
            (Reify(Cache(a), root, NodeKey(q.root, RootPath(q), x)) == BuildShown(a, q.root, RootPath(q), x) <==>
             Holds(a, q.root, RootPath(q), x)) &&
            (Whole(a) ==> ShownBuilt(a, q.root, RootPath(q), x))
  {
    var a := AnswerOf(db, q, PageOf(q, xs), labels, js, root, many);
    var j := PageIsKept(db, q, BoundRequest(q), xs, x);
    KeptIsKept(db, q, PageOf(q, xs), labels, js, root, many, j);
    Rebuilt(a, root, q.root, RootPath(q), x, j);
    if Whole(a) {
      ShownIsBuilt(a, root, q.root, RootPath(q), x, j);
    }
  }

  /** The loader's list has one entry per root of the rows, read under the key of that root. */
  lemma ListIsRoots(
      db: Database, q: Request, xs: seq<Row>, labels: map<string, Column>, js: seq<JoinedRow>,
      root: RowObject, many: set<string>)
    requires Answers(db, q, xs, labels, js) && LoaderReady(q, labels, root, many) && UniqueKeys(db, q.root)
    ensures var a, roots := AnswerOf(db, q, PageOf(q, xs), labels, js, root, many), FirstRoots(q, js);
            |LoadedTrees(a)| == |roots| &&
            forall i :: 0 <= i < |roots| ==>
              LoadedTrees(a)[i] == Reify(Cache(a), root, NodeKey(q.root, RootPath(q), roots[i]))
  {
    var a, roots := AnswerOf(db, q, PageOf(q, xs), labels, js, root, many), FirstRoots(q, js);
    RowsShowRoots(db, q, BoundRequest(q), xs, labels, js);
    RootKeysAreRoots(db, q, labels, js, root, many);
    ResultList(root, a.rows, many);
  }

  /**
   Single-query mode, for every request that compiles and every answer the database may give: the loader returns, root
   by root in the order of the rows, the objects the kept rows show, if and only if it can hold each of them.
   */
  lemma SingleModeShows(
      db: Database, q: Request, xs: seq<Row>, labels: map<string, Column>, js: seq<JoinedRow>,
      root: RowObject, many: set<string>)
    requires Sound(q) && Answers(db, q, xs, labels, js) && LoaderReady(q, labels, root, many) && Keyed(db, q.root)
    ensures forall x :: x in FirstRoots(q, js) <==> x in PageOf(q, xs)
    ensures var a := AnswerOf(db, q, PageOf(q, xs), labels, js, root, many);
            LoadedTrees(a) == ShownTrees(a, q.root, FirstRoots(q, js)) <==>
              forall x :: x in PageOf(q, xs) ==> Holds(a, q.root, RootPath(q), x)
  {
    var a, roots := AnswerOf(db, q, PageOf(q, xs), labels, js, root, many), FirstRoots(q, js);
    IsAnswered(db, q, xs, labels, js, root, many);
    IsAtRoot(db, q, xs, labels, js, root, many);
    RootKeyShown(q, labels, root, many);
    Pagination(db, q, BoundRequest(q), xs, labels, js);
    ListIsRoots(db, q, xs, labels, js, root, many);
    forall i | 0 <= i < |roots|
      ensures LoadedTrees(a)[i] == BuildShown(a, q.root, a.rootPath, roots[i]) <==>
                Holds(a, q.root, a.rootPath, roots[i])
    {
      assert roots[i] in roots;
      RootIsRebuilt(db, q, xs, labels, js, root, many, roots[i]);
    }
    OneByOne(a, q.root, LoadedTrees(a), roots);
  }

  lemma OneByOne(a: Answer, n: Node, trees: seq<Tree>, roots: seq<Row>)
    requires |trees| == |roots|
    requires forall i :: 0 <= i < |roots| ==>
               (trees[i] == BuildShown(a, n, a.rootPath, roots[i]) <==> Holds(a, n, a.rootPath, roots[i]))
    ensures trees == ShownTrees(a, n, roots) <==> forall x :: x in roots ==> Holds(a, n, a.rootPath, x)
  {
    var shown := ShownTrees(a, n, roots);
    assert forall i :: 0 <= i < |roots| ==> shown[i] == BuildShown(a, n, a.rootPath, roots[i]);
    if trees == shown {
      forall x | x in roots
        ensures Holds(a, n, a.rootPath, x)
      {
        var i :| 0 <= i < |roots| && roots[i] == x;
        assert trees[i] == shown[i];
      }
    }
    if forall x :: x in roots ==> Holds(a, n, a.rootPath, x) {
      forall i | 0 <= i < |roots|
        ensures trees[i] == shown[i]
      {
        assert roots[i] in roots;
      }
    }
  }

  /** The data of a page that the loader can hold: what it asks of the data is exactly this. */
  ghost predicate Loadable(db: Database, q: Request, page: seq<Row>) {
    forall x :: x in page ==> AtMostOne(db, q.root, x) && SiblingsApart(db, q.root, RootPath(q), x)
  }

  /**
   With a root filter of its own columns, the loader returns the objects that nested loops build from the page of
   filtered roots, if and only if no to-one field has two rows and no two children of one has-many field have keys of
   one hash code. They come in the order of the page when no two of its roots are tied.
   */
  lemma SingleModeBuilds(
      db: Database, q: Request, xs: seq<Row>, labels: map<string, Column>, js: seq<JoinedRow>,
      root: RowObject, many: set<string>)
    requires WellFormedEdges(q.root.edges) && RootUndotted(q) && LoaderReady(q, labels, root, many)
    requires Answers(db, q, xs, labels, js) && Keyed(db, q.root)
    ensures forall x :: x in FirstRoots(q, js) <==> x in PageOf(q, xs)
    ensures var trees := LoadedTrees(AnswerOf(db, q, PageOf(q, xs), labels, js, root, many));
            trees == BuiltTrees(db, q.root, FirstRoots(q, js)) <==> Loadable(db, q, PageOf(q, xs))
    ensures TotalOrder(db.collation) && Untied(db, q, PageOf(q, xs)) ==> FirstRoots(q, js) == PageOf(q, xs)
  {
    var a, roots := AnswerOf(db, q, PageOf(q, xs), labels, js, root, many), FirstRoots(q, js);
    UndottedIsSound(q);
    SingleModeShows(db, q, xs, labels, js, root, many);
    IsAnswered(db, q, xs, labels, js, root, many);
    IsAtRoot(db, q, xs, labels, js, root, many);
    UndottedIsWhole(db, q, xs, labels, js, root, many);
    forall x | x in PageOf(q, xs)
      ensures ShownBuilt(a, q.root, RootPath(q), x)
    {
      RootIsRebuilt(db, q, xs, labels, js, root, many, x);
    }
    ShownAreBuilt(a, q.root, roots);
    RootKeyShown(q, labels, root, many);
    Pagination(db, q, BoundRequest(q), xs, labels, js);
  }

  lemma ShownAreBuilt(a: Answer, n: Node, xs: seq<Row>)
    requires forall x :: x in xs ==> ShownBuilt(a, n, a.rootPath, x)
    ensures ShownTrees(a, n, xs) == BuiltTrees(a.db, n, xs)
  {
    forall i | 0 <= i < |xs|
      ensures ShownTrees(a, n, xs)[i] == BuiltTrees(a.db, n, xs)[i]
    {
      assert xs[i] in xs;
      assert ShownBuilt(a, n, a.rootPath, xs[i]);
    }
  }
}
