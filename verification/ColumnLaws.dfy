/** The labels of a compiled request carry its selection: the tree read from them mirrors it. */
module ColumnLaws {
  import opened Names
  import opened Filters
  import opened Sql
  import opened Query
  import opened Statement
  import opened AliasCache
  import opened SimpleParser
  import opened Labels
  import opened ColumnTree

  // ---------------------------------------------------------------- requests over a schema

  /** Fields, columns and keys are names, every type selects its key, no column is named like a relationship. */
  predicate WellNamed(n: Node) {
    IsName(n.key) && n.key in n.columns && (forall f :: f in n.columns ==> IsName(f)) &&
    forall e :: e in n.edges ==> IsName(e.field) && e.field !in n.columns && WellNamed(e.node)
  }

  predicate Proper(q: Request) {
    IsName(q.root.table) && WellNamed(q.root) && WellFormedEdges(q.root.edges)
  }

  lemma {:induction false} OccursNamed(n: Node, p: Path, m: Node, q: Path)
    requires WellNamed(n) && WellFormedEdges(n.edges) && p != [] && AreNames(p) && Occurs(n, p, m, q)
    ensures q != [] && AreNames(q) && WellNamed(m) && WellFormedEdges(m.edges)
    decreases n
  {
    if !(m == n && q == p) {
      var e :| e in n.edges && Occurs(e.node, p + [e.field], m, q);
      OccursNamed(e.node, p + [e.field], m, q);
    }
  }

  /** A type of a proper request. */
  ghost predicate Type(q: Request, m: Node, p: Path) {
    Occurs(q.root, RootPath(q), m, p)
  }

  lemma TypeNamed(q: Request, m: Node, p: Path)
    requires Proper(q) && Type(q, m, p)
    ensures p != [] && AreNames(p) && WellNamed(m) && WellFormedEdges(m.edges)
  {
    OccursNamed(q.root, RootPath(q), m, p);
  }

  lemma SamePathSameType(q: Request, m: Node, p: Path, m': Node, p': Path)
    requires Proper(q) && Type(q, m, p) && Type(q, m', p') && Dotted(p) == Dotted(p')
    ensures p == p' && m == m'
  {
    TypeNamed(q, m, p);
    TypeNamed(q, m', p');
    DottedIsInjective(p, p');
    OneTypePerPath(q.root, RootPath(q), m, m', p);
  }

  // ---------------------------------------------------------------- the aliases of a request

  /** The entry of a relationship that occurs in the selection. */
  ghost predicate IsEntry(n: Node, p: Path, x: Entry) {
    exists m, q, e :: Occurs(n, p, m, q) && e in m.edges && x == Entry(Dotted(q + [e.field]), e.hasMany)
  }

  ghost predicate IsEntryBelow(edges: seq<Edge>, p: Path, x: Entry) {
    exists e :: e in edges && (x == Entry(Dotted(p + [e.field]), e.hasMany) || IsEntry(e.node, p + [e.field], x))
  }

  lemma EntryHere(n: Node, p: Path, x: Entry)
    ensures IsEntry(n, p, x) <==> IsEntryBelow(n.edges, p, x)
  {
    if IsEntry(n, p, x) {
      var m, q, e :| Occurs(n, p, m, q) && e in m.edges && x == Entry(Dotted(q + [e.field]), e.hasMany);
      if !(m == n && q == p) {
        var d :| d in n.edges && Occurs(d.node, p + [d.field], m, q);
        assert IsEntry(d.node, p + [d.field], x);
      }
    }
    if IsEntryBelow(n.edges, p, x) {
      var e :| e in n.edges && (x == Entry(Dotted(p + [e.field]), e.hasMany) || IsEntry(e.node, p + [e.field], x));
      if IsEntry(e.node, p + [e.field], x) {
        var m, q, d :| Occurs(e.node, p + [e.field], m, q) && d in m.edges &&
                       x == Entry(Dotted(q + [d.field]), d.hasMany);
        assert Occurs(n, p, m, q);
      } else {
        assert Occurs(n, p, n, p);
      }
    }
  }

  lemma {:induction false} EntriesAre(n: Node, p: Path, x: Entry)
    ensures x in EntriesOfAll(n.edges, p) <==> IsEntry(n, p, x)
    decreases n, |n.edges| + 1
  {
    EntryHere(n, p, x);
    EntriesAreBelow(n, n.edges, p, x);
  }

  lemma {:induction false} EntriesAreBelow(n: Node, edges: seq<Edge>, p: Path, x: Entry)
    requires forall e :: e in edges ==> e in n.edges
    ensures x in EntriesOfAll(edges, p) <==> IsEntryBelow(edges, p, x)
    decreases n, |edges|
  {
    if edges != [] {
      var e := edges[0];
      assert e in n.edges;
      EntriesAre(e.node, p + [e.field], x);
      EntriesAreBelow(n, edges[1..], p, x);
      assert forall d :: d in edges <==> d == e || d in edges[1..];
    }
  }

  lemma {:induction false} AddEntriesKeeps(order: seq<Entry>, es: seq<Entry>)
    requires DistinctEntries(order)
    ensures var all := AddEntries(order, es);
            DistinctEntries(all) && |order| <= |all| && all[..|order|] == order &&
            (forall x :: x in all ==> x in order || x in es) && (forall x :: x in es ==> Named(all, x.name))
    decreases es
  {
    if es != [] {
      var once := AddEntry(order, es[0]);
      if !Named(order, es[0].name) {
        NewNameIsDistinct(order, es[0]);
      }
      AddEntriesKeeps(once, es[1..]);
      var all := AddEntries(order, es);
      assert all[..|order|] == all[..|once|][..|order|];
      assert Named(all, es[0].name) by {
        var x :| x in once && x.name == es[0].name;
        assert x in all[..|once|];
      }
      forall x | x in es
        ensures Named(all, x.name)
      {
        assert x == es[0] || x in es[1..];
      }
    }
  }

  /** The aliases of a request: the root first, then exactly its relationships. */
  lemma OrderIs(q: Request)
    ensures var order := OrderOf(q);
            DistinctEntries(order) && order != [] && order[0] == RootEntry(q) &&
            (forall x :: x in order ==> x == RootEntry(q) || IsEntry(q.root, RootPath(q), x)) &&
            (forall x :: IsEntry(q.root, RootPath(q), x) ==> Named(order, x.name))
  {
    var es := EntriesOfAll(q.root.edges, RootPath(q));
    var once := AddEntries([RootEntry(q)], es);
    AddEntriesKeeps([RootEntry(q)], es);
    AddEntriesKeeps(once, es);
    forall x
      ensures x in es <==> IsEntry(q.root, RootPath(q), x)
    {
      EntriesAre(q.root, RootPath(q), x);
    }
  }

  lemma RootName(q: Request)
    ensures Dotted(RootPath(q)) == q.root.table
  {
  }

  /** Every type has an alias of its own, with no dot in it. */
  lemma TypeHasAlias(q: Request, m: Node, p: Path)
    requires Proper(q) && Type(q, m, p)
    ensures Dotted(p) in Numbered(OrderOf(q))
    ensures var alias := Numbered(OrderOf(q))[Dotted(p)];
            '.' !in alias && alias in Reversed(OrderOf(q)) && Reversed(OrderOf(q))[alias] == Dotted(p)
  {
    var order := OrderOf(q);
    OrderIs(q);
    RootName(q);
    if p == RootPath(q) {
      assert order[0] in order && order[0].name == Dotted(p);
    } else {
      var parent, e := ParentOccurs(q.root, RootPath(q), m, p);
      assert IsEntry(q.root, RootPath(q), Entry(Dotted(p), e.hasMany));
    }
    var x :| x in order && x.name == Dotted(p);
    var i :| 0 <= i < |order| && order[i] == x;
    PositionIndex(order, i);
    NatTextHasNoDot(i);
  }

  /** The loader's flag of a relationship is the flag of the selection. */
  lemma FlagIs(q: Request, m: Node, p: Path, e: Edge)
    requires Proper(q) && Type(q, m, p) && e in m.edges
    ensures Dotted(p + [e.field]) in Flags(OrderOf(q)) && Flags(OrderOf(q))[Dotted(p + [e.field])] == e.hasMany
  {
    var order, at := OrderOf(q), p + [e.field];
    OrderIs(q);
    TypeNamed(q, m, p);
    OccursInside(q.root, RootPath(q), m, p, e);
    assert IsEntry(q.root, RootPath(q), Entry(Dotted(at), e.hasMany));
    var x :| x in order && x.name == Dotted(at);
    var i :| 0 <= i < |order| && order[i] == x;
    PositionIndex(order, i);
    if x == RootEntry(q) {
      DottedIsInjective(at, RootPath(q));
      assert |at| > |RootPath(q)|;
    } else {
      EntryOfPath(q, m, p, e, x);
    }
  }

  lemma EntryOfPath(q: Request, m: Node, p: Path, e: Edge, x: Entry)
    requires Proper(q) && Type(q, m, p) && e in m.edges && IsEntry(q.root, RootPath(q), x)
    requires x.name == Dotted(p + [e.field])
    ensures x.many == e.hasMany
  {
    var m', p', e' :| Occurs(q.root, RootPath(q), m', p') && e' in m'.edges &&
                      x == Entry(Dotted(p' + [e'.field]), e'.hasMany);
    TypeNamed(q, m, p);
    TypeNamed(q, m', p');
    DottedIsInjective(p + [e.field], p' + [e'.field]);
    assert (p + [e.field])[..|p|] == p && (p' + [e'.field])[..|p'|] == p';
    assert p == p' && e.field == e'.field;
    SamePathSameType(q, m, p, m', p');
    SameEdgeField(m.edges, e, e');
  }

  // ---------------------------------------------------------------- the key columns of a request

  lemma {:induction false} KeyFound(n: Node, at: Path, path: Path)
    ensures var found := PrimaryKeyForPath(n, at, path);
            (found.Some? ==> exists m :: Occurs(n, at, m, path) && m.key == found.value) &&
            (found.None? ==> forall m :: !Occurs(n, at, m, path))
    decreases n, |n.edges| + 1
  {
    if at == path {
      assert Occurs(n, at, n, path);
    } else {
      KeyFoundBelow(n, n.edges, at, path);
      if PrimaryKeyForPath(n, at, path).Some? {
        var e, m :| e in n.edges && Occurs(e.node, at + [e.field], m, path) &&
                    m.key == PrimaryKeyForPath(n, at, path).value;
        assert Occurs(n, at, m, path);
      }
    }
  }

  lemma {:induction false} KeyFoundBelow(n: Node, edges: seq<Edge>, at: Path, path: Path)
    requires forall e :: e in edges ==> e in n.edges
    ensures var found := PrimaryKeyBelow(edges, at, path);
            (found.Some? ==>
               exists e, m :: e in edges && Occurs(e.node, at + [e.field], m, path) && m.key == found.value) &&
            (found.None? ==> forall e, m :: e in edges ==> !Occurs(e.node, at + [e.field], m, path))
    decreases n, |edges|
  {
    if edges != [] {
      assert edges[0] in n.edges;
      KeyFound(edges[0].node, at + [edges[0].field], path);
      KeyFoundBelow(n, edges[1..], at, path);
    }
  }

  lemma KeyForIs(q: Request, m: Node, p: Path)
    requires Proper(q) && Type(q, m, p)
    ensures KeyFor(q, p) == m.key
  {
    KeyFound(q.root, RootPath(q), p);
    var m' :| Occurs(q.root, RootPath(q), m', p) && m'.key == KeyFor(q, p);
    OneTypePerPath(q.root, RootPath(q), m, m', p);
  }

  /** Every planned join is at a type of the selection. */
  lemma {:induction false} PlanOccurs(n: Node, edges: seq<Edge>, p: Path, b: BoundJoin) returns (m: Node)
    requires (forall e :: e in edges ==> e in n.edges) && PlanEdges(edges, p).Plan? && b in PlanEdges(edges, p).joins
    ensures Occurs(n, p, m, b.join.path)
    decreases n, |edges|
  {
    var e := edges[0];
    assert e in n.edges && PlanEdge(e, p).Plan?;
    var first := PlanEdge(e, p).joins;
    if b in first {
      if b == OwnJoin(e, p) {
        m := e.node;
        assert Occurs(e.node, p + [e.field], m, p + [e.field]);
      } else {
        m := PlanOccurs(e.node, e.node.edges, p + [e.field], b);
      }
    } else {
      m := PlanOccurs(n, edges[1..], p, b);
    }
  }

  lemma {:induction false} WithKeysAt(
      keys: map<string, string>, q: Request, bs: seq<BoundJoin>, name: string, k: string)
    requires name in keys ==> keys[name] == k
    requires forall b :: b in bs && Dotted(b.join.path) == name ==> KeyFor(q, b.join.path) == k
    ensures var all := WithKeys(keys, q, bs);
            (name in all ==> all[name] == k) &&
            (name in all <==> name in keys || exists b :: b in bs && Dotted(b.join.path) == name)
    decreases bs
  {
    if bs != [] {
      WithKeysAt(keys[Dotted(bs[0].join.path) := KeyFor(q, bs[0].join.path)], q, bs[1..], name, k);
      assert forall b :: b in bs <==> b == bs[0] || b in bs[1..];
    }
  }

  lemma {:induction false} TypeIsPlanned(n: Node, p: Path, m: Node, at: Path) returns (b: BoundJoin)
    requires WellFormedEdges(n.edges) && PlanEdges(n.edges, p).Plan? && Occurs(n, p, m, at) && at != p
    ensures b in PlanEdges(n.edges, p).joins && b.join.path == at
    decreases n
  {
    var e :| e in n.edges && Occurs(e.node, p + [e.field], m, at);
    PlanHolds(n.edges, p, e);
    if at == p + [e.field] {
      b := OwnJoin(e, p);
    } else {
      b := TypeIsPlanned(e.node, p + [e.field], m, at);
    }
  }

  /** The alias cache knows the key column of every type. */
  lemma KeyIs(q: Request, m: Node, p: Path)
    requires Proper(q) && Type(q, m, p)
    ensures IsKey(KeysOf(q), Dotted(p), m.key)
  {
    PlanEdgesShape(q.root.edges, RootPath(q), {RootPath(q)});
    var bs := PlanEdges(q.root.edges, RootPath(q)).joins;
    RootName(q);
    if p == RootPath(q) {
      OnlyRootAtRoot(q.root, RootPath(q), m);
    } else {
      var b := TypeIsPlanned(q.root, RootPath(q), m, p);
      if Dotted(p) == q.root.table {
        assert Occurs(q.root, RootPath(q), q.root, RootPath(q));
        SamePathSameType(q, m, p, q.root, RootPath(q));
      }
    }
    forall b | b in bs && Dotted(b.join.path) == Dotted(p)
      ensures KeyFor(q, b.join.path) == m.key
    {
      var m' := PlanOccurs(q.root, q.root.edges, RootPath(q), b);
      SamePathSameType(q, m, p, m', b.join.path);
      KeyForIs(q, m, p);
    }
    var start := map[q.root.table := RootId(q)];
    WithKeysAt(start, q, bs, Dotted(p), m.key);
    WithKeysAt(WithKeys(start, q, bs), q, bs, Dotted(p), m.key);
  }
}
