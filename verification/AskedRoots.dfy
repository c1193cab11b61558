/** The single-query mode against what a request asks for: its roots and the objects below them. */
module AskedRoots {
  import opened Truth
  import opened Filters
  import opened FilterLaws
  import opened Seqs
  import opened Sql
  import opened Query
  import opened Ordering
  import opened Statement
  import opened Paging
  import opened Loader
  import opened Rebuild
  import opened SingleMode
  import opened Asked

  /** A root row the request asks for. */
  ghost predicate AskedRoot(db: Database, q: Request, x: Row) {
    x in RowsOf(db, q.root.table) && Asks(db, q.root, x)
  }

  /**
   No set of the request without an operator carries a `not`, and no name of a nested filter is dotted. Names of the
   root filter may be: they are read on the joined rows.
   */
  predicate IsReadAsWritten(q: Request) {
    (q.root.filter.Some? ==> NoLoneNegation(q.root.filter.value)) && AllReadAsWritten(q.root.edges)
  }

  // ---------------------------------------------------------------- the paths of a plan

  /** A planned table hangs where its path leads along the selection. */
  lemma {:induction false} PlannedLeads(edges: seq<Edge>, p: Path, b: BoundJoin)
    requires PlanEdges(edges, p).Plan? && b in PlanEdges(edges, p).joins
    ensures Below(b.join.path, p) && Leads(edges, b.join.path[|p|..])
    decreases edges
  {
    var e := edges[0];
    var at := p + [e.field];
    if b == OwnJoin(e, p) {
      assert at[|p|..] == [e.field] && at[..|p|] == p && [e.field][1..] == [];
      assert Leads(e.node.edges, []);
    } else if b in PlanEdge(e, p).joins {
      PlannedLeads(e.node.edges, at, b);
      BelowField(b.join.path, p, e.field);
      LeadsStep(edges, e, p, b.join.path);
    } else {
      PlannedLeads(edges[1..], p, b);
      var d :| d in edges[1..] && d.field == b.join.path[|p|] && Leads(d.node.edges, b.join.path[|p|..][1..]);
      assert d in edges;
    }
  }

  lemma LeadsStep(edges: seq<Edge>, e: Edge, p: Path, r: Path)
    requires e in edges && Below(r, p + [e.field]) && Below(r, p) && r[|p|] == e.field
    requires Leads(e.node.edges, r[|p + [e.field]|..])
    ensures Leads(edges, r[|p|..])
  {
    assert r[|p|..][1..] == r[|p + [e.field]|..];
  }

  // ---------------------------------------------------------------- from a joined row to related rows

  /** Below a path, a joined row shows at every selected relationship a related row, or nothing. */
  ghost predicate ShowsRelated(db: Database, edges: seq<Edge>, p: Path, j: JoinedRow)
    decreases edges
  {
    forall e :: e in edges ==> ShowsChild(db, e, p, j) && ShowsRelated(db, e.node.edges, p + [e.field], j)
  }

  ghost predicate ShowsChild(db: Database, e: Edge, p: Path, j: JoinedRow) {
    var at := p + [e.field];
    at in j && (j[at].Some? ==> p in j && j[p].Some? && JoinsTo(db, e, j[p].value, j[at].value))
  }

  lemma {:induction false} JoinedShowsRelated(
      db: Database, rows: seq<JoinedRow>, bs: seq<BoundJoin>, known: set<Path>, j: JoinedRow, edges: seq<Edge>, p: Path)
    requires AllFit(bs) && Ordered(bs, known) && Over(rows, known) && j in JoinAll(db, rows, bs)
    requires WellFormedEdges(edges) && PlanEdges(edges, p).Plan?
    requires forall b :: b in PlanEdges(edges, p).joins ==> b in bs
    ensures ShowsRelated(db, edges, p, j)
    decreases edges
  {
    forall e | e in edges
      ensures ShowsChild(db, e, p, j) && ShowsRelated(db, e.node.edges, p + [e.field], j)
    {
      PlanHolds(edges, p, e);
      OneShowsRelated(db, rows, bs, known, j, e, p);
      JoinedShowsRelated(db, rows, bs, known, j, e.node.edges, p + [e.field]);
    }
  }

  lemma OneShowsRelated(
      db: Database, rows: seq<JoinedRow>, bs: seq<BoundJoin>, known: set<Path>, j: JoinedRow, e: Edge, p: Path)
    requires AllFit(bs) && Ordered(bs, known) && Over(rows, known) && j in JoinAll(db, rows, bs)
    requires WellFormedSet(e.node.filter) && !OnFilter(e, p).Fails? && OwnJoin(e, p) in bs
    ensures ShowsChild(db, e, p, j)
  {
    var k :| 0 <= k < |bs| && bs[k] == OwnJoin(e, p);
    OwnJoinIsTheRelation(db, e, p, map[], map[]);
    JoinAllSound(db, rows, bs, known, j, k);
    if j[p + [e.field]].Some? {
      OwnJoinIsTheRelation(db, e, p, j[p].value, j[p + [e.field]].value);
    }
  }

  function Look(j: JoinedRow, p: Path): Option<Row> {
    if p in j then j[p] else None
  }

  /** The row of every path is what the joined row shows there. */
  ghost predicate Pictures(t: Related, edges: seq<Edge>, p: Path, j: JoinedRow) {
    forall r :: Leads(edges, r) ==> RowAt(t, r) == Look(j, p + r)
  }

  /** What the rows below the first relationship add to those below the others. */
  lemma ChildAdded(db: Database, edges: seq<Edge>, p: Path, j: JoinedRow, others: Related, below: Related)
    returns (t: Related)
    requires edges != [] && DistinctFields(edges) && WellFormedSet(edges[0].node.filter)
    requires ReadAsWritten(edges[0].node.filter) && ShowsChild(db, edges[0], p, j)
    requires Some(others.row) == Look(j, p) && Relates(db, edges[1..], others) && Pictures(others, edges[1..], p, j)
    requires var e, at := edges[0], p + [edges[0].field];
             Some(below.row) == Look(j, at) && Relates(db, e.node.edges, below) && Pictures(below, e.node.edges, at, j)
    ensures t.row == others.row && Relates(db, edges, t) && Pictures(t, edges, p, j)
  {
    var e := edges[0];
    JoinedIsAsked(db, e, others.row, below.row);
    t := Related(others.row, others.below[e.field := below]);
    MoreRelated(db, edges, others, t, below);
    PicturesMore(edges, p, j, others, t);
  }

  lemma NothingAdded(db: Database, edges: seq<Edge>, p: Path, j: JoinedRow, others: Related)
    requires edges != [] && DistinctFields(edges) && edges[0].field !in others.below
    requires ShowsRelated(db, edges[0].node.edges, p + [edges[0].field], j) && Look(j, p + [edges[0].field]).None?
    requires Some(others.row) == Look(j, p) && Relates(db, edges[1..], others) && Pictures(others, edges[1..], p, j)
    ensures Relates(db, edges, others) && Pictures(others, edges, p, j)
  {
    NothingBelow(db, edges[0].node.edges, p + [edges[0].field], j);
    OthersRelate(db, edges, others);
    PicturesMore(edges, p, j, others, others);
  }

  lemma OtherFields(db: Database, edges: seq<Edge>, others: Related)
    requires edges != [] && DistinctFields(edges) && Relates(db, edges[1..], others)
    ensures edges[0].field !in others.below
  {
    assert forall d :: d in edges[1..] ==> d.field != edges[0].field;
  }

  /** The rows a joined row shows, as related rows. */
  lemma {:induction false} RelatedOf(db: Database, edges: seq<Edge>, p: Path, j: JoinedRow) returns (t: Related)
    requires WellFormedEdges(edges) && AllReadAsWritten(edges)
    requires ShowsRelated(db, edges, p, j) && Look(j, p).Some?
    ensures Some(t.row) == Look(j, p) && Relates(db, edges, t) && Pictures(t, edges, p, j)
    decreases edges
  {
    if edges == [] {
      t := Related(Look(j, p).value, map[]);
      assert p + [] == p;
    } else {
      var e, at := edges[0], p + [edges[0].field];
      assert e in edges && ShowsChild(db, e, p, j) && forall d :: d in edges[1..] ==> d in edges;
      var others := RelatedOf(db, edges[1..], p, j);
      if j[at].Some? {
        var below := RelatedOf(db, e.node.edges, at, j);
        t := ChildAdded(db, edges, p, j, others, below);
      } else {
        t := others;
        OtherFields(db, edges, others);
        NothingAdded(db, edges, p, j, others);
      }
    }
  }

  lemma OthersRelate(db: Database, edges: seq<Edge>, others: Related)
    requires edges != [] && Relates(db, edges[1..], others)
    ensures Relates(db, edges, others)
  {
    forall f | f in others.below
      ensures exists e :: e in edges && e.field == f && AskedChild(db, e, others.row, others.below[f].row) &&
                          Relates(db, e.node.edges, others.below[f])
    {
      var e :| e in edges[1..] && e.field == f && AskedChild(db, e, others.row, others.below[f].row) &&
               Relates(db, e.node.edges, others.below[f]);
      assert e in edges;
    }
  }

  lemma MoreRelated(db: Database, edges: seq<Edge>, others: Related, t: Related, below: Related)
    requires edges != [] && Relates(db, edges[1..], others)
    requires t == Related(others.row, others.below[edges[0].field := below])
    requires AskedChild(db, edges[0], t.row, below.row) && Relates(db, edges[0].node.edges, below)
    ensures Relates(db, edges, t)
  {
    OthersRelate(db, edges, others);
    forall f | f in t.below
      ensures exists e :: e in edges && e.field == f && AskedChild(db, e, t.row, t.below[f].row) &&
                          Relates(db, e.node.edges, t.below[f])
    {
      if f == edges[0].field {
        assert edges[0] in edges;
      } else {
        assert t.below[f] == others.below[f];
      }
    }
  }

  /** Where nothing is shown, nothing is shown below. */
  lemma {:induction false} NothingBelow(db: Database, edges: seq<Edge>, p: Path, j: JoinedRow)
    requires ShowsRelated(db, edges, p, j) && Look(j, p).None?
    ensures forall r :: Leads(edges, r) ==> Look(j, p + r).None?
    decreases edges
  {
    forall r | Leads(edges, r)
      ensures Look(j, p + r).None?
    {
      if r == [] {
        assert p + r == p;
      } else {
        var e :| e in edges && e.field == r[0] && Leads(e.node.edges, r[1..]);
        NothingBelow(db, e.node.edges, p + [e.field], j);
        assert p + r == p + [e.field] + r[1..];
      }
    }
  }

  lemma PicturesMore(edges: seq<Edge>, p: Path, j: JoinedRow, others: Related, t: Related)
    requires edges != [] && DistinctFields(edges) && Pictures(others, edges[1..], p, j) && Some(t.row) == Look(j, p)
    requires forall f :: f != edges[0].field ==> (f in t.below <==> f in others.below)
    requires forall f :: f != edges[0].field && f in t.below ==> t.below[f] == others.below[f]
    requires var e, at := edges[0], p + [edges[0].field];
             if e.field in t.below then Pictures(t.below[e.field], e.node.edges, at, j)
             else forall r :: Leads(e.node.edges, r) ==> Look(j, at + r).None?
    ensures Pictures(t, edges, p, j)
  {
    forall r | Leads(edges, r)
      ensures RowAt(t, r) == Look(j, p + r)
    {
      if r == [] {
        assert p + r == p;
      } else {
        var e :| e in edges && e.field == r[0] && Leads(e.node.edges, r[1..]);
        assert p + r == p + [e.field] + r[1..];
        if e == edges[0] {
          assert e.field in t.below ==> RowAt(t.below[e.field], r[1..]) == Look(j, p + [e.field] + r[1..]);
        } else {
          assert e in edges[1..] && e.field != edges[0].field;
          assert Leads(edges[1..], r);
          assert RowAt(others, r) == Look(j, p + r);
        }
      }
    }
  }

  // ---------------------------------------------------------------- from related rows to a joined row

  function RowFrom(o: Option<Related>, r: Path): Option<Row> {
    if o.Some? then RowAt(o.value, r) else None
  }

  /** At or below a path. */
  predicate Inside(r: Path, p: Path) {
    |r| >= |p| && r[..|p|] == p
  }

  /** What related rows want of a planned join: the row of its path beside the row of its parent. */
  ghost predicate WantedOf(db: Database, o: Option<Related>, p: Path, b: BoundJoin) {
    Fits(b) && Local(db, b) && Inside(b.join.parent, p) && Inside(b.join.path, p) &&
    (RowFrom(o, b.join.path[|p|..]).Some? ==>
       RowFrom(o, b.join.parent[|p|..]).Some? &&
       OnHolds(db, b, RowFrom(o, b.join.parent[|p|..]).value, RowFrom(o, b.join.path[|p|..]).value))
  }

  lemma {:induction false} PlannedIsWanted(
      db: Database, all: seq<Edge>, edges: seq<Edge>, p: Path, o: Option<Related>, b: BoundJoin)
    requires WellFormedEdges(all) && AllReadAsWritten(all) && (forall e :: e in edges ==> e in all)
    requires PlanEdges(edges, p).Plan? && b in PlanEdges(edges, p).joins
    requires o.Some? ==> Relates(db, all, o.value)
    ensures WantedOf(db, o, p, b)
    decreases all, |edges|
  {
    var e := edges[0];
    var at := p + [e.field];
    assert e in all;
    if b == OwnJoin(e, p) {
      OwnIsWanted(db, all, e, p, o);
    } else if b in PlanEdge(e, p).joins {
      var below := if o.Some? && e.field in o.value.below then Some(o.value.below[e.field]) else None;
      BelowRelates(db, all, e, o);
      PlannedIsWanted(db, e.node.edges, e.node.edges, at, below, b);
      WantedAbove(db, e, p, o, below, b);
    } else {
      PlannedIsWanted(db, all, edges[1..], p, o, b);
    }
  }

  lemma BelowRelates(db: Database, all: seq<Edge>, e: Edge, o: Option<Related>)
    requires DistinctFields(all) && e in all && (o.Some? ==> Relates(db, all, o.value))
    ensures o.Some? && e.field in o.value.below ==>
              AskedChild(db, e, o.value.row, o.value.below[e.field].row) &&
              Relates(db, e.node.edges, o.value.below[e.field])
  {
    if o.Some? && e.field in o.value.below {
      var t := o.value;
      var d :| d in all && d.field == e.field && AskedChild(db, d, t.row, t.below[e.field].row) &&
               Relates(db, d.node.edges, t.below[e.field]);
      SameEdgeField(all, e, d);
    }
  }

  lemma OwnIsWanted(db: Database, all: seq<Edge>, e: Edge, p: Path, o: Option<Related>)
    requires WellFormedEdges(all) && AllReadAsWritten(all) && e in all && !OnFilter(e, p).Fails?
    requires o.Some? ==> Relates(db, all, o.value)
    ensures WantedOf(db, o, p, OwnJoin(e, p))
  {
    var at := p + [e.field];
    assert at[|p|..] == [e.field] && at[..|p|] == p && p[|p|..] == [] && p[..|p|] == p && [e.field][1..] == [];
    OwnJoinIsTheRelation(db, e, p, map[], map[]);
    if o.Some? && e.field in o.value.below {
      var x, y := o.value.row, o.value.below[e.field].row;
      assert RowAt(o.value, [e.field]) == Some(y);
      BelowRelates(db, all, e, o);
      JoinedIsAsked(db, e, x, y);
      OwnJoinIsTheRelation(db, e, p, x, y);
    }
  }

  lemma WantedAbove(db: Database, e: Edge, p: Path, o: Option<Related>, below: Option<Related>, b: BoundJoin)
    requires below == if o.Some? && e.field in o.value.below then Some(o.value.below[e.field]) else None
    requires WantedOf(db, below, p + [e.field], b)
    ensures WantedOf(db, o, p, b)
  {
    WalksOn(e, p, o, below, b.join.path);
    WalksOn(e, p, o, below, b.join.parent);
  }

  lemma WalksOn(e: Edge, p: Path, o: Option<Related>, below: Option<Related>, r: Path)
    requires below == if o.Some? && e.field in o.value.below then Some(o.value.below[e.field]) else None
    requires Inside(r, p + [e.field])
    ensures Inside(r, p) && RowFrom(o, r[|p|..]) == RowFrom(below, r[|p + [e.field]|..])
  {
    var at := p + [e.field];
    assert r[..|p|] == r[..|at|][..|p|];
    assert r[|p|] == r[..|at|][|p|];
    assert r[|p|..][1..] == r[|at|..];
  }

  function WantOf(t: Related, p: Path): Path -> Option<Row> {
    (r: Path) => if Inside(r, p) then RowAt(t, r[|p|..]) else None
  }

  /** Related rows of a selected root are all shown by one of its joined rows. */
  lemma RelatedIsJoined(db: Database, q: Request, t: Related) returns (j: JoinedRow)
    requires Sound(q) && AllReadAsWritten(q.root.edges) && Relates(db, q.root.edges, t)
    ensures JoinedFrom(db, q, t.row, j)
    ensures forall r :: Leads(q.root.edges, r) && RowAt(t, r).Some? && RootPath(q) + r in Seen(q) ==>
              Look(j, RootPath(q) + r) == RowAt(t, r)
  {
    BoundFits(q);
    var p, bs, want := RootPath(q), BoundRequest(q).joins, WantOf(t, RootPath(q));
    forall b | b in bs
      ensures WantedOf(db, Some(t), p, b)
    {
      PlannedIsWanted(db, q.root.edges, q.root.edges, p, Some(t), b);
    }
    assert p[|p|..] == [];
    j := JoinAllRealizes(db, [RootRow(q, t.row)], bs, {p}, RootRow(q, t.row), want);
    forall r | RowAt(t, r).Some? && p + r in Seen(q)
      ensures Look(j, p + r) == RowAt(t, r)
    {
      assert (p + r)[|p|..] == r && (p + r)[..|p|] == p;
      assert want(p + r) == RowAt(t, r);
    }
  }

  /** The paths of the tables of a request. */
  function Seen(q: Request): set<Path> {
    {RootPath(q)} + Paths(BoundRequest(q).joins)
  }

  // ---------------------------------------------------------------- the root filter

  function Walk(f: Filter): Path {
    if |f.path| <= 1 then [] else f.path[1..]
  }

  /** A placed name is walked along selected relationships. */
  lemma PlacedWalks(q: Request, f: Filter)
    requires Sound(q) && Placed(f, RootPath(q), Some(Seen(q)))
    ensures Intended(f, RootPath(q)) == Column(RootPath(q) + Walk(f), f.fieldName)
    ensures Intended(f, []) == Column(Walk(f), f.fieldName)
    ensures RootPath(q) + Walk(f) in Seen(q) && Leads(q.root.edges, Walk(f))
  {
    BoundFits(q);
    var p, bs := RootPath(q), BoundRequest(q).joins;
    assert p + [] == p;
    if |f.path| > 1 {
      assert [] + f.path[1..] == f.path[1..];
      assert f.path == p + f.path[1..];
      var b :| b in bs && b.join.path == f.path;
      PlannedLeads(q.root.edges, p, b);
      assert b.join.path[|p|..] == f.path[1..];
    }
  }

  lemma RootFilterPlaced(q: Request)
    requires Sound(q) && q.root.filter.Some?
    ensures AllPlaced(q.root.filter.value, RootPath(q), Some(Seen(q))) && WellFormed(q.root.filter.value)
  {
    BoundFits(q);
  }

  /** The root filter is read on joined rows as on the related rows they show. */
  lemma PicturedMeaning(db: Database, q: Request, j: JoinedRow, t: Related)
    requires Sound(q) && q.root.filter.Some? && Pictures(t, q.root.edges, RootPath(q), j)
    requires Meaning(q.root.filter.value, RootPath(q), db.collation, EnvOf(j)) == Yes
    ensures Meaning(q.root.filter.value, [], db.collation, WorldOf(t)) == Yes
  {
    var s, p := q.root.filter.value, RootPath(q);
    RootFilterPlaced(q);
    forall f: Filter | Placed(f, p, Some(Seen(q)))
      ensures ClearerIn(p, EnvOf(j), [], WorldOf(t))(f)
    {
      PlacedWalks(q, f);
      assert RowAt(t, Walk(f)) == Look(j, p + Walk(f));
    }
    ForFiltersWeaken(s, PlacedIn(p, Some(Seen(q))), ClearerIn(p, EnvOf(j), [], WorldOf(t)));
    MeaningClears(s, p, EnvOf(j), [], WorldOf(t), db.collation);
  }

  lemma RealizedMeaning(db: Database, q: Request, j: JoinedRow, t: Related)
    requires Sound(q) && q.root.filter.Some?
    requires forall r :: Leads(q.root.edges, r) && RowAt(t, r).Some? && RootPath(q) + r in Seen(q) ==>
               Look(j, RootPath(q) + r) == RowAt(t, r)
    requires Meaning(q.root.filter.value, [], db.collation, WorldOf(t)) == Yes
    ensures Meaning(q.root.filter.value, RootPath(q), db.collation, EnvOf(j)) == Yes
  {
    var s, p := q.root.filter.value, RootPath(q);
    RootFilterPlaced(q);
    forall f: Filter | Placed(f, p, Some(Seen(q)))
      ensures ClearerIn([], WorldOf(t), p, EnvOf(j))(f)
    {
      PlacedWalks(q, f);
      assert RowAt(t, Walk(f)).Some? ==> Look(j, p + Walk(f)) == RowAt(t, Walk(f));
    }
    ForFiltersWeaken(s, PlacedIn(p, Some(Seen(q))), ClearerIn([], WorldOf(t), p, EnvOf(j)));
    MeaningClears(s, [], WorldOf(t), p, EnvOf(j), db.collation);
  }

  lemma SelectedRootIsAsked(db: Database, q: Request, x: Row)
    requires Sound(q) && IsReadAsWritten(q) && RootSelected(db, q, x)
    ensures AskedRoot(db, q, x)
  {
    if q.root.filter.Some? {
      BoundFits(q);
      DropLoneKeeps(q.root.filter.value);
      var s, p := BoundRequest(q), RootPath(q);
      var j :| JoinedFrom(db, q, x, j) && RootFilterHolds(db, q, j);
      RootShown(db, q, s, x, j);
      JoinedShowsRelated(db, [RootRow(q, x)], s.joins, {p}, j, q.root.edges, p);
      var t := RelatedOf(db, q.root.edges, p, j);
      PicturedMeaning(db, q, j, t);
    }
  }

  lemma AskedRootIsSelected(db: Database, q: Request, x: Row)
    requires Sound(q) && IsReadAsWritten(q) && AskedRoot(db, q, x)
    ensures RootSelected(db, q, x)
  {
    if q.root.filter.Some? {
      DropLoneKeeps(q.root.filter.value);
      var t: Related :| t.row == x && Relates(db, q.root.edges, t) &&
                        Meaning(q.root.filter.value, [], db.collation, WorldOf(t)) == Yes;
      var j := RelatedIsJoined(db, q, t);
      RealizedMeaning(db, q, j, t);
      assert RootFilterHolds(db, q, j);
    }
  }

  /** The sub-select selects the roots the request asks for, dotted names of the root filter included. */
  lemma RootIsAsked(db: Database, q: Request, x: Row)
    requires Sound(q) && IsReadAsWritten(q)
    ensures RootSelected(db, q, x) <==> AskedRoot(db, q, x)
  {
    if RootSelected(db, q, x) {
      SelectedRootIsAsked(db, q, x);
    }
    if AskedRoot(db, q, x) {
      AskedRootIsSelected(db, q, x);
    }
  }

  // ---------------------------------------------------------------- the objects

  ghost function AskedTrees(db: Database, n: Node, xs: seq<Row>): seq<Tree> {
    Map(xs, (x: Row) => BuildAsked(db, n, x))
  }

  lemma BuiltAreAsked(db: Database, n: Node, xs: seq<Row>)
    requires WellFormedEdges(n.edges) && AllReadAsWritten(n.edges)
    ensures BuiltTrees(db, n, xs) == AskedTrees(db, n, xs)
  {
    forall i | 0 <= i < |xs|
      ensures Build(db, n, xs[i]) == BuildAsked(db, n, xs[i])
    {
      BuildIsAsked(db, n, xs[i]);
    }
  }

  /** The roots of an answer are the rows the request asks for. */
  ghost predicate AllAsked(db: Database, q: Request, xs: seq<Row>) {
    forall x :: x in xs <==> AskedRoot(db, q, x)
  }

  lemma RootsAreAsked(db: Database, q: Request, xs: seq<Row>)
    requires Sound(q) && IsReadAsWritten(q)
    requires forall x :: x in xs <==> RootSelected(db, q, x)
    ensures AllAsked(db, q, xs)
  {
    forall x
      ensures x in xs <==> AskedRoot(db, q, x)
    {
      RootIsAsked(db, q, x);
    }
  }

  /**
   Against the request itself: of a request that is read as written, with a root filter of its own columns, the loader
   returns the objects asked for, from the page of the roots asked for, exactly when it can hold them.
   */
  lemma SingleModeAnswersRequest(
      db: Database, q: Request, xs: seq<Row>, labels: map<string, Column>, js: seq<JoinedRow>,
      root: RowObject, many: set<string>)
    requires WellFormedEdges(q.root.edges) && RootUndotted(q) && IsReadAsWritten(q)
    requires LoaderReady(q, labels, root, many) && Answers(db, q, xs, labels, js) && Keyed(db, q.root)
    ensures AllAsked(db, q, xs) && forall x :: x in FirstRoots(q, js) <==> x in PageOf(q, xs)
    ensures var trees := LoadedTrees(AnswerOf(db, q, PageOf(q, xs), labels, js, root, many));
            trees == AskedTrees(db, q.root, FirstRoots(q, js)) <==> Loadable(db, q, PageOf(q, xs))
    ensures TotalOrder(db.collation) && Untied(db, q, PageOf(q, xs)) ==> FirstRoots(q, js) == PageOf(q, xs)
  {
    UndottedIsSound(q);
    SingleModeBuilds(db, q, xs, labels, js, root, many);
    BuiltAreAsked(db, q.root, FirstRoots(q, js));
    forall x
      ensures x in xs <==> RootSelected(db, q, x)
    {
      SubSelectFilters(db, q, x);
      assert x in xs <==> Keeps(db, BoundRequest(q), x);
    }
    RootsAreAsked(db, q, xs);
  }

  // ---------------------------------------------------------------- a concrete request

  /** `Order_query(filter: {filters: [{field: "status", op: EQ, value: "open"}], not: true}) { id }` */
  const NotOpenOrders := Request(
    Node("Order", "id", ["id"], Some(Alone(StatusIsOpen).(negation := true)), []),
    Some(0), Some(100), Sort(None, false), false)

  const StatusIsOpen := Filter(["Order"], "status", TString, EQ, Operand.One(Val("open")), false)

  /** Asked for the orders that are not open, the sub-select selects an open one. */
  lemma OpenIsSelected(co: Collation)
    ensures var x: Row := map["id" := Val("1"), "status" := Val("open")];
            var db := Database(map["Order" := [x]], map["Order" := {"id", "status"}], co);
            WellFormedEdges(NotOpenOrders.root.edges) && RootUndotted(NotOpenOrders) &&
            RootSelected(db, NotOpenOrders, x) && !AskedRoot(db, NotOpenOrders, x)
  {
    var x: Row := map["id" := Val("1"), "status" := Val("open")];
    var db := Database(map["Order" := [x]], map["Order" := {"id", "status"}], co);
    var s := NotOpenOrders.root.filter.value;
    UndottedSelects(db, NotOpenOrders, x);
    UndottedAsks(db, NotOpenOrders.root, x);
    assert Col(x, "status") == Val("open");
    assert FilterMeanings(s.filters.list, [], co, RowEnv(x)) == [Yes];
  }
}
