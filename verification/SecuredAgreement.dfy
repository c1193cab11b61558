/** Row security is put on the single-query mode only: exactly when the two modes still return the same objects. */
module SecuredAgreement {
  import opened Filters
  import opened Seqs
  import opened Sql
  import opened Query
  import opened Ordering
  import opened Statement
  import opened Paging
  import opened Loader
  import opened Rebuild
  import opened SingleMode
  import opened RowSecurity
  import opened SingleTraversal
  import opened SecuredMode
  import M = Multi
  import Agreement

  // ---------------------------------------------------------------- below one object

  /** The roles allow every row that is selected below the object, at every depth. */
  ghost predicate AllowedBelow(db: Database, perms: seq<DmRowPermission>, n: Node, x: Row)
    decreases n
  {
    forall e, y :: e in n.edges && JoinsTo(db, e, x, y) ==>
      Allowed(db.collation, perms, e.node.table, y) && AllowedBelow(db, perms, e.node, y)
  }

  lemma SameKeySameRow(db: Database, n: Node, y: Row, z: Row, a: Tree, b: Tree)
    requires Keyed(db, n) && n.key in n.columns && y in RowsOf(db, n.table) && z in RowsOf(db, n.table)
    requires a.scalars == ScalarsOf(n, y) && b.scalars == ScalarsOf(n, z) && a == b
    ensures y == z
  {
    KeyedRowsDiffer(db, n, y, z);
  }

  /** A child that nested loops build is one the roles allow, when both build the same. */
  lemma BuiltIsAllowed(db: Database, perms: seq<DmRowPermission>, n: Node, x: Row, e: Edge, y: Row)
    requires M.Projected(n) && Keyed(db, n) && WellFormedEdges(n.edges) &&
             BuildAllowed(db, perms, n, x) == Build(db, n, x)
    requires e in n.edges && JoinsTo(db, e, x, y)
    ensures Allowed(db.collation, perms, e.node.table, y) && BuildAllowed(db, perms, e.node, y) == Build(db, e.node, y)
  {
    var kid := (e.field, Build(db, e.node, y));
    assert kid in Build(db, n, x).kids;
    var d, z :| d in n.edges && z in RowsOf(db, d.node.table) && JoinsTo(db, d, x, z) &&
                Allowed(db.collation, perms, d.node.table, z) && kid == (d.field, BuildAllowed(db, perms, d.node, z));
    SameEdgeField(n.edges, e, d);
    SameKeySameRow(db, e.node, y, z, Build(db, e.node, y), BuildAllowed(db, perms, e.node, z));
  }

  /** An object is the same with and without row security iff the roles allow everything below it. */
  lemma {:induction false} BuildAllowedIff(db: Database, perms: seq<DmRowPermission>, n: Node, x: Row)
    requires M.Projected(n) && Keyed(db, n) && WellFormedEdges(n.edges)
    ensures BuildAllowed(db, perms, n, x) == Build(db, n, x) <==> AllowedBelow(db, perms, n, x)
    decreases n
  {
    forall e, y | e in n.edges
      ensures BuildAllowed(db, perms, e.node, y) == Build(db, e.node, y) <==> AllowedBelow(db, perms, e.node, y)
    {
      BuildAllowedIff(db, perms, e.node, y);
    }
    if BuildAllowed(db, perms, n, x) == Build(db, n, x) {
      forall e, y | e in n.edges && JoinsTo(db, e, x, y)
        ensures Allowed(db.collation, perms, e.node.table, y) && AllowedBelow(db, perms, e.node, y)
      {
        BuiltIsAllowed(db, perms, n, x, e, y);
      }
    }
    if AllowedBelow(db, perms, n, x) {
      AllAllowedSame(db, perms, n, x);
    }
  }

  lemma AllAllowedSame(db: Database, perms: seq<DmRowPermission>, n: Node, x: Row)
    requires forall e, y :: e in n.edges && JoinsTo(db, e, x, y) ==>
               Allowed(db.collation, perms, e.node.table, y) &&
               BuildAllowed(db, perms, e.node, y) == Build(db, e.node, y)
    ensures BuildAllowed(db, perms, n, x) == Build(db, n, x)
  {
    var allowed, built := BuildAllowed(db, perms, n, x).kids, Build(db, n, x).kids;
    forall kid | kid in allowed
      ensures kid in built
    {
      var e, y :| e in n.edges && y in RowsOf(db, e.node.table) && JoinsTo(db, e, x, y) &&
                  Allowed(db.collation, perms, e.node.table, y) && kid == (e.field, BuildAllowed(db, perms, e.node, y));
    }
    forall kid | kid in built
      ensures kid in allowed
    {
      var e, y :| e in n.edges && y in RowsOf(db, e.node.table) && JoinsTo(db, e, x, y) &&
                  kid == (e.field, Build(db, e.node, y));
    }
  }

  // ---------------------------------------------------------------- the page

  lemma {:induction false} KeepIsShort(s: seq<Row>, p: Row -> bool)
    ensures |Keep(s, p)| <= |s|
    ensures |Keep(s, p)| == |s| ==> Keep(s, p) == s && forall x :: x in s ==> p(x)
  {
    if s != [] {
      KeepIsShort(s[1..], p);
      assert s == [s[0]] + s[1..];
    }
  }

  lemma {:induction false} KeepAppends(s: seq<Row>, t: seq<Row>, p: Row -> bool)
    ensures Keep(s + t, p) == Keep(s, p) + Keep(t, p)
  {
    if s == [] {
      assert s + t == t;
    } else {
      assert (s + t)[1..] == s[1..] + t;
      KeepAppends(s[1..], t, p);
    }
  }

  lemma KeptAt(s: seq<Row>, p: Row -> bool, m: nat)
    requires m < |s| && p(s[m])
    ensures |Keep(s[..m], p)| < |Keep(s, p)| && Keep(s, p)[|Keep(s[..m], p)|] == s[m]
  {
    assert s == s[..m] + s[m..] && s[m..][0] == s[m];
    KeepAppends(s[..m], s[m..], p);
  }

  /** A row that keeps its position when others are left out has only kept rows before it. */
  lemma PositionKept(s: seq<Row>, p: Row -> bool, m: nat)
    requires Distinct(s) && m < |s| && m < |Keep(s, p)| && Keep(s, p)[m] == s[m]
    ensures forall x :: x in s[..m + 1] ==> p(x)
  {
    assert Keep(s, p)[m] in Keep(s, p);
    KeptAt(s, p, m);
    KeepDistinct(s, p);
    KeepIsShort(s[..m], p);
    assert |Keep(s[..m], p)| == |s[..m]|;
    assert s[..m + 1] == s[..m] + [s[m]];
  }

  /** How far into the list a page reaches. */
  function PageEnd(q: Request, xs: seq<Row>): nat {
    (if q.skip.None? then 0 else if q.skip.value < |xs| then q.skip.value else |xs|) + |PageOf(q, xs)|
  }

  lemma PageEndIs(q: Request, xs: seq<Row>)
    ensures PageEnd(q, xs) <= |xs|
    ensures PageOf(q, xs) != [] ==>
              PageOf(q, xs)[|PageOf(q, xs)| - 1] == xs[PageEnd(q, xs) - 1] &&
              PageEnd(q, xs) == (if q.skip.None? then 0 else q.skip.value) + |PageOf(q, xs)|
  {
  }

  /** The pages of two lists that agree up to the end of the page are one page. */
  lemma SamePrefixSamePage(q: Request, xs: seq<Row>, ys: seq<Row>)
    requires |ys| <= |xs| && PageEnd(q, xs) <= |ys| && ys[..PageEnd(q, xs)] == xs[..PageEnd(q, xs)]
    requires PageEnd(q, xs) == |xs| ==> ys == xs
    ensures PageOf(q, xs) != [] ==> PageOf(q, ys) == PageOf(q, xs)
  {
    var end := PageEnd(q, xs);
    if PageOf(q, xs) != [] && end < |xs| {
      var from := if q.skip.None? then 0 else q.skip.value;
      assert PageOf(q, xs) == xs[..end][from..] && PageOf(q, ys) == ys[..end][from..];
    }
  }

  /** Leaving rows out leaves a page as it is iff the page is empty or no row up to its end is left out. */
  lemma SamePageIff(q: Request, xs: seq<Row>, p: Row -> bool)
    requires Distinct(xs)
    ensures PageEnd(q, xs) <= |xs|
    ensures PageOf(q, Keep(xs, p)) == PageOf(q, xs) <==>
              PageOf(q, xs) == [] || forall x :: x in xs[..PageEnd(q, xs)] ==> p(x)
  {
    PageEndIs(q, xs);
    if PageOf(q, xs) != [] && PageOf(q, Keep(xs, p)) == PageOf(q, xs) {
      SamePageKeepsAll(q, xs, p);
    }
    if PageOf(q, xs) != [] && forall x :: x in xs[..PageEnd(q, xs)] ==> p(x) {
      AllKeptSamePage(q, xs, p);
    }
    if PageOf(q, xs) == [] {
      KeepIsShort(xs, p);
    }
  }

  lemma SamePageKeepsAll(q: Request, xs: seq<Row>, p: Row -> bool)
    requires Distinct(xs) && PageOf(q, xs) != [] && PageOf(q, Keep(xs, p)) == PageOf(q, xs)
    ensures PageEnd(q, xs) <= |xs| && forall x :: x in xs[..PageEnd(q, xs)] ==> p(x)
  {
    LastOfPage(q, xs, Keep(xs, p));
    PositionKept(xs, p, PageEnd(q, xs) - 1);
  }

  /** Two lists with the same page have the same row at its end. */
  lemma LastOfPage(q: Request, xs: seq<Row>, ys: seq<Row>)
    requires PageOf(q, xs) != [] && PageOf(q, ys) == PageOf(q, xs)
    ensures 0 < PageEnd(q, xs) <= |xs| && PageEnd(q, xs) <= |ys| && ys[PageEnd(q, xs) - 1] == xs[PageEnd(q, xs) - 1]
  {
    PageEndIs(q, xs);
    PageEndIs(q, ys);
  }

  lemma PrefixKept(xs: seq<Row>, p: Row -> bool, end: nat)
    requires end <= |xs| && forall x :: x in xs[..end] ==> p(x)
    ensures end <= |Keep(xs, p)| <= |xs| && Keep(xs, p)[..end] == xs[..end] && (end == |xs| ==> Keep(xs, p) == xs)
  {
    var head, tail := xs[..end], xs[end..];
    assert xs == head + tail;
    AllKept(head, p);
    KeepAppends(head, tail, p);
    KeepIsShort(xs, p);
  }

  lemma AllKeptSamePage(q: Request, xs: seq<Row>, p: Row -> bool)
    requires PageEnd(q, xs) <= |xs| && PageOf(q, xs) != [] && forall x :: x in xs[..PageEnd(q, xs)] ==> p(x)
    ensures PageOf(q, Keep(xs, p)) == PageOf(q, xs)
  {
    PrefixKept(xs, p, PageEnd(q, xs));
    SamePrefixSamePage(q, xs, Keep(xs, p));
  }

  lemma {:induction false} AllKept(s: seq<Row>, p: Row -> bool)
    requires forall x :: x in s ==> p(x)
    ensures Keep(s, p) == s
  {
    if s != [] {
      AllKept(s[1..], p);
    }
  }

  // ---------------------------------------------------------------- the two modes under row security

  /** The roots that the roles allow, in order. */
  function AllowedRoots(db: Database, perms: seq<DmRowPermission>, q: Request, xs: seq<Row>): seq<Row> {
    Keep(xs, (x: Row) => Allowed(db.collation, perms, q.root.table, x))
  }

  /** The roles allow every root up to the end of the page, and everything below the roots of the page. */
  ghost predicate AllAllowed(db: Database, perms: seq<DmRowPermission>, q: Request, xs: seq<Row>)
    requires PageEnd(q, xs) <= |xs|
  {
    PageOf(q, xs) == [] ||
    ((forall x :: x in xs[..PageEnd(q, xs)] ==> Allowed(db.collation, perms, q.root.table, x)) &&
     forall x :: x in PageOf(q, xs) ==> AllowedBelow(db, perms, q.root, x))
  }

  lemma {:induction false} KeepSorted(db: Database, q: Request, s: seq<Row>, p: Row -> bool)
    requires Distinct(s) && Sorted(db.collation, SortKeys(q), RootRows(q, s))
    ensures Distinct(Keep(s, p)) && Sorted(db.collation, SortKeys(q), RootRows(q, Keep(s, p)))
  {
    KeepDistinct(s, p);
    if s != [] {
      var rest, kept := s[1..], Keep(s[1..], p);
      assert RootRows(q, rest) == RootRows(q, s)[1..];
      KeepSorted(db, q, rest, p);
      forall i | 0 <= i < |kept|
        ensures !Before(db.collation, SortKeys(q), RootRows(q, kept)[i], RootRow(q, s[0]))
      {
        assert kept[i] in rest;
        var k :| 0 <= k < |rest| && rest[k] == kept[i];
        assert !Before(db.collation, SortKeys(q), RootRows(q, s)[k + 1], RootRows(q, s)[0]);
      }
      HeadSorted(db, q, s[0], kept);
    }
  }

  lemma HeadSorted(db: Database, q: Request, x: Row, kept: seq<Row>)
    requires Sorted(db.collation, SortKeys(q), RootRows(q, kept))
    requires forall i :: 0 <= i < |kept| ==> !Before(db.collation, SortKeys(q), RootRows(q, kept)[i], RootRow(q, x))
    ensures Sorted(db.collation, SortKeys(q), RootRows(q, [x] + kept))
  {
    var all := RootRows(q, [x] + kept);
    assert all == [RootRow(q, x)] + RootRows(q, kept);
  }

  /** Trees of objects with keys tell the rows they are built from. */
  lemma SameTreesSameRows(db: Database, perms: seq<DmRowPermission>, q: Request, xs: seq<Row>, ys: seq<Row>)
    requires M.Projected(q.root) && Keyed(db, q.root) && InTable(db, q, xs) && InTable(db, q, ys)
    requires AllowedTrees(db, perms, q.root, ys) == BuiltTrees(db, q.root, xs)
    ensures xs == ys
  {
    var built, allowed := BuiltTrees(db, q.root, xs), AllowedTrees(db, perms, q.root, ys);
    assert |xs| == |built| == |allowed| == |ys|;
    forall i | 0 <= i < |xs|
      ensures xs[i] == ys[i]
    {
      assert xs[i] in xs && ys[i] in ys && built[i] == Build(db, q.root, xs[i]) && allowed[i] == built[i];
      SameKeySameRow(db, q.root, xs[i], ys[i], built[i], allowed[i]);
    }
  }

  lemma SameRowsSameTrees(db: Database, perms: seq<DmRowPermission>, q: Request, xs: seq<Row>)
    requires M.Projected(q.root) && Keyed(db, q.root) && WellFormedEdges(q.root.edges)
    ensures AllowedTrees(db, perms, q.root, xs) == BuiltTrees(db, q.root, xs) <==>
              forall x :: x in xs ==> AllowedBelow(db, perms, q.root, x)
  {
    var built, allowed := BuiltTrees(db, q.root, xs), AllowedTrees(db, perms, q.root, xs);
    forall i | 0 <= i < |xs|
      ensures allowed[i] == built[i] <==> AllowedBelow(db, perms, q.root, xs[i])
    {
      BuildAllowedIff(db, perms, q.root, xs[i]);
    }
    assert forall x :: x in xs ==> exists i :: 0 <= i < |xs| && xs[i] == x;
    if forall x :: x in xs ==> AllowedBelow(db, perms, q.root, x) {
      assert forall i :: 0 <= i < |xs| ==> xs[i] in xs;
    }
  }

  /** Page by page: the trees with row security are the trees without it iff the roles allow all that the page shows. */
  lemma PagesAgreeIff(db: Database, perms: seq<DmRowPermission>, q: Request, xs: seq<Row>)
    requires M.Projected(q.root) && Keyed(db, q.root) && WellFormedEdges(q.root.edges)
    requires Distinct(xs) && InTable(db, q, xs)
    ensures PageEnd(q, xs) <= |xs|
    ensures var secured := AllowedTrees(db, perms, q.root, PageOf(q, AllowedRoots(db, perms, q, xs)));
            secured == BuiltTrees(db, q.root, PageOf(q, xs)) <==> AllAllowed(db, perms, q, xs)
  {
    var page, allowed := PageOf(q, xs), PageOf(q, AllowedRoots(db, perms, q, xs));
    SamePageIff(q, xs, (x: Row) => Allowed(db.collation, perms, q.root.table, x));
    if AllowedTrees(db, perms, q.root, allowed) == BuiltTrees(db, q.root, page) {
      SameTreesSameRows(db, perms, q, page, allowed);
    }
    SameRowsSameTrees(db, perms, q, page);
  }

  /** What multi-query mode returns: the page of all selected roots, as nested loops build them. */
  lemma MultiIsPage(db: Database, q: Request, xs: seq<Row>, rows: seq<Row>, objects: seq<M.ResultObject>)
    requires WellFormedEdges(q.root.edges) && RootUndotted(q) && M.Projected(q.root) && Keyed(db, q.root)
    requires TotalOrder(db.collation) && Agreement.SortedByKey(q)
    requires Sub(q, BoundRequest(q)) && SelectsRoots(db, BoundRequest(q), xs) &&
             Agreement.MultiRun(db, q, rows, objects)
    ensures Map(objects, (o: M.ResultObject) => M.TreeOf(q.root, o)) == BuiltTrees(db, q.root, PageOf(q, xs))
  {
    var page := PageOf(q, xs);
    Agreement.RootTextFits(q);
    Agreement.SameRoots(db, q, xs, rows);
    forall i | 0 <= i < |page|
      ensures M.TreeOf(q.root, objects[i]) == Build(db, q.root, page[i])
    {
      Agreement.RestrictedStands(q, page[i]);
      M.StandInBuildsSame(db, q.root, rows[i], page[i]);
    }
  }

  /** The roots of the secured request are the allowed roots, in the same order. */
  lemma SecuredRoots(
      db: Database, q: Request, securityMap: map<string, FilterSet>, perms: seq<DmRowPermission>,
      xs: seq<Row>, ys: seq<Row>)
    requires WellFormedEdges(q.root.edges) && RootUndotted(q) && Keyed(db, q.root)
    requires TotalOrder(db.collation) && Agreement.SortedByKey(q)
    requires Sub(q, BoundRequest(q)) && SelectsRoots(db, BoundRequest(q), xs)
    requires Distinct(ys) && Sorted(db.collation, SortKeys(q), RootRows(q, ys))
    requires forall x :: x in ys <==>
               x in RowsOf(db, q.root.table) && Selected(db.collation, q.root.filter, x) &&
               Allowed(db.collation, perms, q.root.table, x)
    ensures ys == AllowedRoots(db, perms, q, xs)
  {
    var allowed := AllowedRoots(db, perms, q, xs);
    Agreement.RootsInTable(db, q, xs);
    forall x
      ensures x in allowed <==> x in ys
    {
      Agreement.RootsAreSelected(db, q, xs, x);
    }
    KeepSorted(db, q, xs, (x: Row) => Allowed(db.collation, perms, q.root.table, x));
    UntiedIff(db, q, ys);
    SortedUntiedEqual(db, q, ys, allowed);
  }

  /**
   What the secured single-query mode returns: the page of the allowed roots, with everything not allowed left out.
   */
  lemma SecuredIsPage(
      db: Database, q: Request, securityMap: map<string, FilterSet>, perms: seq<DmRowPermission>,
      xs: seq<Row>, ys: seq<Row>, labels: map<string, Column>, js: seq<JoinedRow>, root: RowObject, many: set<string>)
    requires MapsTo(securityMap, perms) && GoodPermissions(perms)
    requires WellFormedEdges(q.root.edges) && RootUndotted(q) && Keyed(db, q.root)
    requires TotalOrder(db.collation) && Agreement.SortedByKey(q)
    requires Sub(q, BoundRequest(q)) && SelectsRoots(db, BoundRequest(q), xs)
    requires var s := SecureRequest(securityMap, q);
             LoaderReady(s, labels, root, many) && Keyed(db, s.root) && Answers(db, s, ys, labels, js) &&
             Loadable(db, s, PageOf(q, ys))
    ensures LoadedTrees(AnswerOf(db, SecureRequest(securityMap, q), PageOf(q, ys), labels, js, root, many)) ==
              AllowedTrees(db, perms, q.root, PageOf(q, AllowedRoots(db, perms, q, xs)))
  {
    var s := SecureRequest(securityMap, q);
    assert SortKeys(q) == SortKeys(s);
    SecuredModeShows(db, q, securityMap, perms, ys, labels, js, root, many);
    SecuredRoots(db, q, securityMap, perms, xs, ys);
    PageSorted(db, s, BoundRequest(s), ys);
    UntiedIff(db, q, PageOf(q, ys));
  }

  /**
   The two modes under row security: the single-query mode with the merged filters returns the objects of the multi-
   query mode, which has none, if and only if the roles allow every selected root up to the end of the page and every
   row selected below the roots of the page, at every depth.
   */
  lemma SecuredModesAgreeIff(
      db: Database, q: Request, securityMap: map<string, FilterSet>, perms: seq<DmRowPermission>,
      xs: seq<Row>, rows: seq<Row>, objects: seq<M.ResultObject>,
      ys: seq<Row>, labels: map<string, Column>, js: seq<JoinedRow>, root: RowObject, many: set<string>)
    requires MapsTo(securityMap, perms) && GoodPermissions(perms)
    requires WellFormedEdges(q.root.edges) && RootUndotted(q) && M.Projected(q.root) && Keyed(db, q.root)
    requires TotalOrder(db.collation) && Agreement.SortedByKey(q)
    requires Sub(q, BoundRequest(q)) && SelectsRoots(db, BoundRequest(q), xs) &&
             Agreement.MultiRun(db, q, rows, objects)
    requires var s := SecureRequest(securityMap, q);
             LoaderReady(s, labels, root, many) && Keyed(db, s.root) && Answers(db, s, ys, labels, js) &&
             Loadable(db, s, PageOf(q, ys))
    ensures PageEnd(q, xs) <= |xs|
    ensures var s := SecureRequest(securityMap, q);
            var trees := LoadedTrees(AnswerOf(db, s, PageOf(s, ys), labels, js, root, many));
            trees == Map(objects, (o: M.ResultObject) => M.TreeOf(q.root, o)) <==> AllAllowed(db, perms, q, xs)
  {
    SecuredIsPage(db, q, securityMap, perms, xs, ys, labels, js, root, many);
    MultiIsPage(db, q, xs, rows, objects);
    Agreement.RootsInTable(db, q, xs);
    PagesAgreeIff(db, perms, q, xs);
  }
}
