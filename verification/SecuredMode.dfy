/** Row security through the whole single-query mode: what a user is shown is what the roles allow. */
module SecuredMode {
  import opened Truth
  import opened Seqs
  import opened Filters
  import opened FilterLaws
  import opened Sql
  import opened Query
  import opened Ordering
  import opened Statement
  import opened Paging
  import opened Loader
  import opened Rebuild
  import opened SingleMode
  import opened RowSecurity
  import opened SingleTraversal
  import opened Asked
  import opened AskedRoots

  /** Every permission grants some set, every set has some filter, and a filter compares with one value. */
  predicate GoodPermissions(perms: seq<DmRowPermission>) {
    forall p :: p in perms ==> p.filtersets != [] && forall fs :: fs in p.filtersets ==> GoodSet(fs)
  }

  predicate GoodSet(fs: seq<DmFilter>) {
    fs != [] && forall f :: f in fs ==> !f.op.IN?
  }

  /** A filter of the own columns, possibly named by the root path. */
  predicate OwnColumns(s: FilterSet, p: Filter -> bool) {
    WellFormed(s) && ForFilters(s, p)
  }

  lemma SetIsGood(fs: seq<DmFilter>, p: Filter -> bool)
    requires GoodSet(fs) && forall f: Filter :: f.path == [] ==> p(f)
    ensures OwnColumns(SetOf(fs), p)
  {
    forall f | f in FiltersOf(fs)
      ensures GoodFilter(f) && p(f)
    {
      var i :| 0 <= i < |fs| && FiltersOf(fs)[i] == f;
      assert fs[i] in fs;
    }
  }

  lemma {:induction false} SetsAreGood(fss: seq<seq<DmFilter>>, p: Filter -> bool)
    requires (forall fs :: fs in fss ==> GoodSet(fs)) && forall f: Filter :: f.path == [] ==> p(f)
    ensures AllWellFormed(SetsOf(fss)) && ForAllFilters(SetsOf(fss), p)
    decreases fss
  {
    if fss != [] {
      assert fss[0] in fss && SetsOf(fss)[0] == SetOf(fss[0]) && SetsOf(fss)[1..] == SetsOf(fss[1..]);
      SetIsGood(fss[0], p);
      SetsAreGood(fss[1..], p);
    }
  }

  lemma RoleFilterIsGood(perms: seq<DmRowPermission>, typeName: string, p: Filter -> bool)
    requires GoodPermissions(perms) && Restricts(perms, typeName) && forall f: Filter :: f.path == [] ==> p(f)
    ensures OwnColumns(RoleFilter(perms, typeName), p)
  {
    var fss := Granted(perms, typeName);
    forall fs | fs in fss
      ensures GoodSet(fs)
    {
      GrantedMembers(perms, typeName, fs);
    }
    var perm :| perm in perms && perm.typeName == typeName;
    GrantedMembers(perms, typeName, perm.filtersets[0]);
    assert perm.filtersets[0] in perm.filtersets;
    SetsAreGood(fss, p);
  }

  /** The merged filter is as well formed as the query's own. */
  lemma SecuredIsGood(
      securityMap: map<string, FilterSet>, perms: seq<DmRowPermission>, typeName: string, own: Option<FilterSet>,
      p: Filter -> bool)
    requires MapsTo(securityMap, perms) && GoodPermissions(perms) && forall f: Filter :: f.path == [] ==> p(f)
    requires own.Some? ==> OwnColumns(own.value, p)
    ensures var s := Secured(RoleOf(securityMap, typeName), own); s.Some? ==> OwnColumns(s.value, p)
  {
    var role := RoleOf(securityMap, typeName);
    if role.Some? {
      RoleFilterIsGood(perms, typeName, p);
    }
    if role.Some? && own.Some? {
      ListIsGood([role.value] + [own.value], p);
    } else if role.Some? {
      assert [role.value] + [] == [role.value];
      ListIsGood([role.value], p);
    } else if own.Some? {
      assert [] + [own.value] == [own.value];
      ListIsGood([own.value], p);
    }
  }

  lemma {:induction false} ListIsGood(ss: seq<FilterSet>, p: Filter -> bool)
    requires forall s :: s in ss ==> OwnColumns(s, p)
    ensures AllWellFormed(ss) && ForAllFilters(ss, p)
    decreases ss
  {
    if ss != [] {
      assert ss[0] in ss;
      ListIsGood(ss[1..], p);
    }
  }

  lemma {:induction false} SecuredEdgesAreGood(
      securityMap: map<string, FilterSet>, perms: seq<DmRowPermission>, edges: seq<Edge>)
    requires MapsTo(securityMap, perms) && GoodPermissions(perms) && WellFormedEdges(edges)
    ensures WellFormedEdges(SecureEdges(securityMap, edges))
    decreases edges
  {
    var secured := SecureEdges(securityMap, edges);
    if edges != [] {
      SecureEdgesAt(securityMap, edges, 0);
    }
    forall i | 0 <= i < |secured|
      ensures secured[i].field == edges[i].field
      ensures WellFormedSet(secured[i].node.filter) && WellFormedEdges(secured[i].node.edges)
    {
      SecureEdgesAt(securityMap, edges, i);
      var n := edges[i].node;
      assert edges[i] in edges;
      var any := (f: Filter) => true;
      if n.filter.Some? {
        ForFiltersAlways(n.filter.value, any);
      }
      SecuredIsGood(securityMap, perms, n.table, n.filter, any);
      SecuredEdgesAreGood(securityMap, perms, n.edges);
    }
  }

  /** A request with the merged filters. */
  function SecureRequest(securityMap: map<string, FilterSet>, q: Request): Request {
    q.(root := SecureNode(securityMap, q.root))
  }

  lemma SecureRequestIsGood(securityMap: map<string, FilterSet>, perms: seq<DmRowPermission>, q: Request)
    requires MapsTo(securityMap, perms) && GoodPermissions(perms) && WellFormedEdges(q.root.edges) && RootUndotted(q)
    ensures WellFormedEdges(SecureRequest(securityMap, q).root.edges) && RootUndotted(SecureRequest(securityMap, q))
  {
    SecuredEdgesAreGood(securityMap, perms, q.root.edges);
    var named := (f: Filter) => RootFilterName(q, f);
    SecuredIsGood(securityMap, perms, q.root.table, q.root.filter, named);
    var secured := SecureRequest(securityMap, q);
    if secured.root.filter.Some? {
      ForFiltersWeaken(secured.root.filter.value, named, (f: Filter) => RootFilterName(secured, f));
    }
  }

  /**
   What the user is shown: a page of the root rows that the compiled query selects and the roles allow, each with
   exactly the nested objects it selects and they allow, if and only if the loader can hold what is selected.
   */
  lemma SecuredModeShows(
      db: Database, q: Request, securityMap: map<string, FilterSet>, perms: seq<DmRowPermission>, xs: seq<Row>,
      labels: map<string, Column>, js: seq<JoinedRow>, root: RowObject, many: set<string>)
    requires MapsTo(securityMap, perms) && GoodPermissions(perms)
    requires WellFormedEdges(q.root.edges) && RootUndotted(q)
    requires var s := SecureRequest(securityMap, q);
             LoaderReady(s, labels, root, many) && Keyed(db, s.root) && Answers(db, s, xs, labels, js)
    ensures forall x :: x in xs <==>
              x in RowsOf(db, q.root.table) && Selected(db.collation, q.root.filter, x) &&
              Allowed(db.collation, perms, q.root.table, x)
    ensures forall x :: x in FirstRoots(q, js) <==> x in PageOf(q, xs)
    ensures var s := SecureRequest(securityMap, q);
            var trees := LoadedTrees(AnswerOf(db, s, PageOf(s, xs), labels, js, root, many));
            trees == AllowedTrees(db, perms, q.root, FirstRoots(q, js)) <==> Loadable(db, s, PageOf(q, xs))
    ensures TotalOrder(db.collation) && Untied(db, q, PageOf(q, xs)) ==> FirstRoots(q, js) == PageOf(q, xs)
  {
    var s := SecureRequest(securityMap, q);
    SecureRequestIsGood(securityMap, perms, q);
    SingleModeBuilds(db, s, xs, labels, js, root, many);
    SameFirstRoots(q, s, js);
    assert SortKeys(q) == SortKeys(s);
    AllowedAreBuilt(db, securityMap, perms, q.root, FirstRoots(q, js));
    UndottedIsSound(s);
    forall x
      ensures x in xs <==> x in RowsOf(db, q.root.table) && Selected(db.collation, q.root.filter, x) &&
                           Allowed(db.collation, perms, q.root.table, x)
    {
      SubSelectFilters(db, s, x);
      UndottedSelects(db, s, x);
      SecuredMeans(db.collation, securityMap, perms, q.root.table, q.root.filter, x);
      assert x in xs <==> Keeps(db, BoundRequest(s), x);
    }
  }

  ghost function AllowedTrees(db: Database, perms: seq<DmRowPermission>, n: Node, xs: seq<Row>): seq<Tree> {
    Map(xs, (x: Row) => BuildAllowed(db, perms, n, x))
  }

  lemma AllowedAreBuilt(
      db: Database, securityMap: map<string, FilterSet>, perms: seq<DmRowPermission>, n: Node, xs: seq<Row>)
    requires MapsTo(securityMap, perms)
    ensures BuiltTrees(db, SecureNode(securityMap, n), xs) == AllowedTrees(db, perms, n, xs)
  {
    forall i | 0 <= i < |xs|
      ensures Build(db, SecureNode(securityMap, n), xs[i]) == BuildAllowed(db, perms, n, xs[i])
    {
      SecuredBuild(db, securityMap, perms, n, xs[i]);
    }
  }

  lemma {:induction false} SameFirstRoots(q: Request, s: Request, js: seq<JoinedRow>)
    requires q.root.table == s.root.table
    ensures FirstRoots(q, js) == FirstRoots(s, js)
    decreases js
  {
    if js != [] {
      SameFirstRoots(q, s, js[..|js| - 1]);
    }
  }

  // ---------------------------------------------------------------- against the request

  /** A row passes the merged filter iff the roles allow it and the request asks for it. */
  lemma SecuredIsAsked(
      db: Database, securityMap: map<string, FilterSet>, perms: seq<DmRowPermission>, n: Node, x: Row)
    requires MapsTo(securityMap, perms) && WellFormedSet(n.filter) && ReadAsWritten(n.filter)
    ensures Selected(db.collation, Secured(RoleOf(securityMap, n.table), n.filter), x) <==>
              Allowed(db.collation, perms, n.table, x) && Asks(db, n, x)
  {
    SecuredMeans(db.collation, securityMap, perms, n.table, n.filter, x);
    SelectedIsAsked(db, n, x);
  }

  /** The nested objects the request asks for and the roles allow. */
  ghost function BuildGranted(db: Database, perms: seq<DmRowPermission>, n: Node, row: Row): Tree
    decreases n
  {
    Tree(ScalarsOf(n, row),
         set e, y | e in n.edges && y in RowsOf(db, e.node.table) &&
                    AskedChild(db, e, row, y) && Allowed(db.collation, perms, e.node.table, y) ::
           (e.field, BuildGranted(db, perms, e.node, y)))
  }

  lemma {:induction false} AllowedIsGranted(db: Database, perms: seq<DmRowPermission>, n: Node, x: Row)
    requires WellFormedEdges(n.edges) && AllReadAsWritten(n.edges)
    ensures BuildAllowed(db, perms, n, x) == BuildGranted(db, perms, n, x)
    decreases n
  {
    forall e, y | e in n.edges && y in RowsOf(db, e.node.table)
      ensures JoinsTo(db, e, x, y) <==> AskedChild(db, e, x, y)
      ensures BuildAllowed(db, perms, e.node, y) == BuildGranted(db, perms, e.node, y)
    {
      JoinedIsAsked(db, e, x, y);
      AllowedIsGranted(db, perms, e.node, y);
    }
    var allowed, granted := BuildAllowed(db, perms, n, x).kids, BuildGranted(db, perms, n, x).kids;
    forall kid | kid in allowed
      ensures kid in granted
    {
      var e, y :| e in n.edges && y in RowsOf(db, e.node.table) && JoinsTo(db, e, x, y) &&
                  Allowed(db.collation, perms, e.node.table, y) && kid == (e.field, BuildAllowed(db, perms, e.node, y));
    }
    forall kid | kid in granted
      ensures kid in allowed
    {
      var e, y :| e in n.edges && y in RowsOf(db, e.node.table) && AskedChild(db, e, x, y) &&
                  Allowed(db.collation, perms, e.node.table, y) && kid == (e.field, BuildGranted(db, perms, e.node, y));
    }
  }

  ghost function GrantedTrees(db: Database, perms: seq<DmRowPermission>, n: Node, xs: seq<Row>): seq<Tree> {
    Map(xs, (x: Row) => BuildGranted(db, perms, n, x))
  }

  lemma AllowedAreGranted(db: Database, perms: seq<DmRowPermission>, n: Node, xs: seq<Row>)
    requires WellFormedEdges(n.edges) && AllReadAsWritten(n.edges)
    ensures AllowedTrees(db, perms, n, xs) == GrantedTrees(db, perms, n, xs)
  {
    forall i | 0 <= i < |xs|
      ensures BuildAllowed(db, perms, n, xs[i]) == BuildGranted(db, perms, n, xs[i])
    {
      AllowedIsGranted(db, perms, n, xs[i]);
    }
  }

  /** The nested objects the request asks for and the user may see. */
  ghost function BuildForUser(db: Database, u: User, n: Node, row: Row): Tree
    decreases n
  {
    Tree(ScalarsOf(n, row),
         set e, y | e in n.edges && y in RowsOf(db, e.node.table) &&
                    AskedChild(db, e, row, y) && MaySee(db.collation, u, e.node.table, y) ::
           (e.field, BuildForUser(db, u, e.node, y)))
  }

  lemma {:induction false} GrantedForUser(db: Database, u: User, n: Node, x: Row)
    ensures BuildGranted(db, PermissionsFor(u), n, x) == BuildForUser(db, u, n, x)
    decreases n
  {
    var perms := PermissionsFor(u);
    forall e, y | e in n.edges && y in RowsOf(db, e.node.table)
      ensures Allowed(db.collation, perms, e.node.table, y) <==> MaySee(db.collation, u, e.node.table, y)
      ensures BuildGranted(db, perms, e.node, y) == BuildForUser(db, u, e.node, y)
    {
      RolesAllow(db.collation, u, e.node.table, y);
      GrantedForUser(db, u, e.node, y);
    }
    var granted, seen := BuildGranted(db, perms, n, x).kids, BuildForUser(db, u, n, x).kids;
    forall kid | kid in granted
      ensures kid in seen
    {
      var e, y :| e in n.edges && y in RowsOf(db, e.node.table) && AskedChild(db, e, x, y) &&
                  Allowed(db.collation, perms, e.node.table, y) && kid == (e.field, BuildGranted(db, perms, e.node, y));
    }
    forall kid | kid in seen
      ensures kid in granted
    {
      var e, y :| e in n.edges && y in RowsOf(db, e.node.table) && AskedChild(db, e, x, y) &&
                  MaySee(db.collation, u, e.node.table, y) && kid == (e.field, BuildForUser(db, u, e.node, y));
    }
  }

  ghost function UserTrees(db: Database, u: User, n: Node, xs: seq<Row>): seq<Tree> {
    Map(xs, (x: Row) => BuildForUser(db, u, n, x))
  }

  lemma RootReadAsWritten(q: Request)
    requires RootUndotted(q) && IsReadAsWritten(q)
    ensures WellFormedSet(q.root.filter) && ReadAsWritten(q.root.filter)
  {
    if q.root.filter.Some? {
      ForFiltersWeaken(q.root.filter.value, (f: Filter) => RootFilterName(q, f), Undotted);
    }
  }

  /**
   Against the request and the roles: of a request that is read as written the user is shown a page of the rows it asks
   for and the roles allow, each with exactly the nested objects it asks for and the roles allow.
   */
  lemma SecuredModeAnswersRequest(
      db: Database, q: Request, securityMap: map<string, FilterSet>, perms: seq<DmRowPermission>, xs: seq<Row>,
      labels: map<string, Column>, js: seq<JoinedRow>, root: RowObject, many: set<string>)
    requires MapsTo(securityMap, perms) && GoodPermissions(perms)
    requires WellFormedEdges(q.root.edges) && RootUndotted(q) && IsReadAsWritten(q)
    requires var s := SecureRequest(securityMap, q);
             LoaderReady(s, labels, root, many) && Keyed(db, s.root) && Answers(db, s, xs, labels, js)
    ensures forall x :: x in xs <==> AskedRoot(db, q, x) && Allowed(db.collation, perms, q.root.table, x)
    ensures forall x :: x in FirstRoots(q, js) <==> x in PageOf(q, xs)
    ensures var s := SecureRequest(securityMap, q);
            var trees := LoadedTrees(AnswerOf(db, s, PageOf(s, xs), labels, js, root, many));
            trees == GrantedTrees(db, perms, q.root, FirstRoots(q, js)) <==> Loadable(db, s, PageOf(q, xs))
  {
    SecuredModeShows(db, q, securityMap, perms, xs, labels, js, root, many);
    AllowedAreGranted(db, perms, q.root, FirstRoots(q, js));
    RootReadAsWritten(q);
    forall x
      ensures Selected(db.collation, q.root.filter, x) <==> Asks(db, q.root, x)
    {
      SelectedIsAsked(db, q.root, x);
    }
  }

  /**
   Against the request and the cache of permissions: the user is shown a page of the rows that are asked for and that
   the entries of the user's roles allow, each with exactly such nested objects.
   */
  lemma SecuredModeServesUser(
      db: Database, q: Request, u: User, securityMap: map<string, FilterSet>, xs: seq<Row>,
      labels: map<string, Column>, js: seq<JoinedRow>, root: RowObject, many: set<string>)
    requires MapsTo(securityMap, PermissionsFor(u)) && GoodPermissions(PermissionsFor(u))
    requires WellFormedEdges(q.root.edges) && RootUndotted(q) && IsReadAsWritten(q)
    requires var s := SecureRequest(securityMap, q);
             LoaderReady(s, labels, root, many) && Keyed(db, s.root) && Answers(db, s, xs, labels, js)
    ensures forall x :: x in xs <==> AskedRoot(db, q, x) && MaySee(db.collation, u, q.root.table, x)
    ensures forall x :: x in FirstRoots(q, js) <==> x in PageOf(q, xs)
    ensures var s := SecureRequest(securityMap, q);
            var trees := LoadedTrees(AnswerOf(db, s, PageOf(s, xs), labels, js, root, many));
            trees == UserTrees(db, u, q.root, FirstRoots(q, js)) <==> Loadable(db, s, PageOf(q, xs))
  {
    SecuredModeAnswersRequest(db, q, securityMap, PermissionsFor(u), xs, labels, js, root, many);
    forall x
      ensures Allowed(db.collation, PermissionsFor(u), q.root.table, x) <==> MaySee(db.collation, u, q.root.table, x)
    {
      RolesAllow(db.collation, u, q.root.table, x);
    }
    forall i | 0 <= i < |FirstRoots(q, js)|
      ensures GrantedTrees(db, PermissionsFor(u), q.root, FirstRoots(q, js))[i] ==
              UserTrees(db, u, q.root, FirstRoots(q, js))[i]
    {
      GrantedForUser(db, u, q.root, FirstRoots(q, js)[i]);
    }
    assert GrantedTrees(db, PermissionsFor(u), q.root, FirstRoots(q, js)) ==
           UserTrees(db, u, q.root, FirstRoots(q, js));
  }
}