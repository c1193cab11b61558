/**
 Column labels carry the shape of a query through the database: the compiler prints "alias.field", the loader
 rebuilds the tree of types from the labels and the alias cache alone.
 */
module Labels {
  import opened Names
  import opened Filters
  import opened Query
  import opened AliasCache

  // ---------------------------------------------------------------- printing the labels

  function LabelOf(aliases: map<string, string>, p: Path, field: string): string {
    (if Dotted(p) in aliases then aliases[Dotted(p)] else "null") + "." + field
  }

  function AddColumns(m: map<string, Column>, aliases: map<string, string>, p: Path, fields: seq<string>)
    : map<string, Column>
    decreases fields
  {
    if fields == [] then m
    else AddColumns(m[LabelOf(aliases, p, fields[0]) := Column(p, fields[0])], aliases, p, fields[1..])
  }

  /** The columns of a type, then of the types below it. */
  function AddProjection(m: map<string, Column>, aliases: map<string, string>, n: Node, p: Path): map<string, Column>
    decreases n
  {
    AddProjections(AddColumns(m, aliases, p, n.columns), aliases, n.edges, p)
  }

  function AddProjections(m: map<string, Column>, aliases: map<string, string>, edges: seq<Edge>, p: Path)
    : map<string, Column>
    decreases edges
  {
    if edges == [] then m
    else AddProjections(AddProjection(m, aliases, edges[0].node, p + [edges[0].field]), aliases, edges[1..], p)
  }

  class Projector {
    var columns: map<string, Column>

    constructor ()
      ensures columns == map[]
    {
      columns := map[];
    }

    /** The selection's columns are put under their labels, type by type. */
    method Add(aliasCache: SQLAliasCache, n: Node, p: Path)
      modifies this
      ensures columns == AddProjection(old(columns), aliasCache.aliasMapping, n, p)
      decreases n
    {
      ghost var whole := AddColumns(columns, aliasCache.aliasMapping, p, n.columns);
      for i := 0 to |n.columns|
        invariant AddColumns(columns, aliasCache.aliasMapping, p, n.columns[i..]) == whole
      {
        var f := n.columns[i];
        columns := columns[LabelOf(aliasCache.aliasMapping, p, f) := Column(p, f)];
        assert n.columns[i..][1..] == n.columns[i + 1..];
      }
      assert n.columns[|n.columns|..] == [];
      ghost var all := AddProjections(columns, aliasCache.aliasMapping, n.edges, p);
      assert n.edges[0..] == n.edges;
      for i := 0 to |n.edges|
        invariant AddProjections(columns, aliasCache.aliasMapping, n.edges[i..], p) == all
      {
        Add(aliasCache, n.edges[i].node, p + [n.edges[i].field]);
        assert n.edges[i..][1..] == n.edges[i + 1..];
      }
      assert n.edges[|n.edges|..] == [];
    }
  }

  // ---------------------------------------------------------------- the types of a selection

  /** The type m occurs at path q in the selection n at path p. */
  ghost predicate Occurs(n: Node, p: Path, m: Node, q: Path)
    decreases n
  {
    (m == n && q == p) || exists e :: e in n.edges && Occurs(e.node, p + [e.field], m, q)
  }

  lemma {:induction false} OccursBelow(n: Node, p: Path, m: Node, q: Path)
    requires Occurs(n, p, m, q)
    ensures q == p ||
            (Below(q, p) && exists e :: e in n.edges && q[|p|] == e.field && Occurs(e.node, p + [e.field], m, q))
    decreases n
  {
    if !(m == n && q == p) {
      var e :| e in n.edges && Occurs(e.node, p + [e.field], m, q);
      OccursBelow(e.node, p + [e.field], m, q);
      if q == p + [e.field] {
        assert q[..|p|] == p;
      } else {
        BelowField(q, p, e.field);
      }
    }
  }

  /** One type per path. */
  lemma {:induction false} OneTypePerPath(n: Node, p: Path, m: Node, m': Node, q: Path)
    requires WellFormedEdges(n.edges) && Occurs(n, p, m, q) && Occurs(n, p, m', q)
    ensures m == m'
    decreases n
  {
    OccursBelow(n, p, m, q);
    OccursBelow(n, p, m', q);
    if q != p {
      var e :| e in n.edges && q[|p|] == e.field && Occurs(e.node, p + [e.field], m, q);
      var d :| d in n.edges && q[|p|] == d.field && Occurs(d.node, p + [d.field], m', q);
      SameEdgeField(n.edges, e, d);
      OneTypePerPath(e.node, p + [e.field], m, m', q);
    } else {
      OnlyRootAtRoot(n, p, m);
      OnlyRootAtRoot(n, p, m');
    }
  }

  lemma OnlyRootAtRoot(n: Node, p: Path, m: Node)
    requires Occurs(n, p, m, p)
    ensures m == n
  {
    if m != n {
      var e :| e in n.edges && Occurs(e.node, p + [e.field], m, p);
      OccursBelow(e.node, p + [e.field], m, p);
    }
  }

  lemma {:induction false} OccursInside(n: Node, p: Path, m: Node, q: Path, e: Edge)
    requires Occurs(n, p, m, q) && e in m.edges
    ensures Occurs(n, p, e.node, q + [e.field])
    decreases n
  {
    if m == n && q == p {
      assert Occurs(e.node, p + [e.field], e.node, q + [e.field]);
    } else {
      var d :| d in n.edges && Occurs(d.node, p + [d.field], m, q);
      OccursInside(d.node, p + [d.field], m, q, e);
    }
  }

  /** The parent of a type that is not the root. */
  lemma {:induction false} ParentOccurs(n: Node, p: Path, m: Node, q: Path) returns (parent: Node, e: Edge)
    requires Occurs(n, p, m, q) && q != p
    ensures q != [] && Occurs(n, p, parent, q[..|q| - 1]) && e in parent.edges && m == e.node
    ensures q == q[..|q| - 1] + [e.field]
    decreases n
  {
    e :| e in n.edges && Occurs(e.node, p + [e.field], m, q);
    if q == p + [e.field] {
      OnlyRootAtRoot(e.node, q, m);
      parent := n;
      assert q[..|q| - 1] == p;
    } else {
      ghost var d := e;
      parent, e := ParentOccurs(d.node, p + [d.field], m, q);
    }
  }

  // ---------------------------------------------------------------- what the labels are

  /** A column of a type that occurs in the selection. */
  ghost predicate IsSelected(n: Node, p: Path, c: Column) {
    exists m :: Occurs(n, p, m, c.table) && c.field in m.columns
  }

  /** Every label is the label of the column it stands for. */
  predicate SelfLabelled(aliases: map<string, string>, m: map<string, Column>) {
    forall l :: l in m ==> l == LabelOf(aliases, m[l].table, m[l].field)
  }

  lemma {:induction false} ColumnsLabelled(
      m: map<string, Column>, aliases: map<string, string>, p: Path, fields: seq<string>)
    requires SelfLabelled(aliases, m)
    ensures var m' := AddColumns(m, aliases, p, fields);
            SelfLabelled(aliases, m') && m.Keys <= m'.Keys &&
            (forall f :: f in fields ==> LabelOf(aliases, p, f) in m') &&
            forall l :: l in m' ==> (l in m && m'[l] == m[l]) || (m'[l].table == p && m'[l].field in fields)
    decreases fields
  {
    if fields != [] {
      ColumnsLabelled(m[LabelOf(aliases, p, fields[0]) := Column(p, fields[0])], aliases, p, fields[1..]);
    }
  }

  /** What a pass over a selection adds to the labels: its columns, all of them and nothing else. */
  ghost predicate Adds(
    m: map<string, Column>, m': map<string, Column>, aliases: map<string, string>, n: Node, p: Path)
  {
    SelfLabelled(aliases, m') && m.Keys <= m'.Keys &&
    (forall c :: IsSelected(n, p, c) ==> LabelOf(aliases, c.table, c.field) in m') &&
    forall l :: l in m' ==> (l in m && m'[l] == m[l]) || IsSelected(n, p, m'[l])
  }

  ghost predicate AddsBelow(
    m: map<string, Column>, m': map<string, Column>, aliases: map<string, string>, edges: seq<Edge>, p: Path)
  {
    SelfLabelled(aliases, m') && m.Keys <= m'.Keys &&
    (forall c, e :: e in edges && IsSelected(e.node, p + [e.field], c) ==> LabelOf(aliases, c.table, c.field) in m') &&
    forall l :: l in m' ==> (l in m && m'[l] == m[l]) || IsSelectedBelow(edges, p, m'[l])
  }

  ghost predicate IsSelectedBelow(edges: seq<Edge>, p: Path, c: Column) {
    exists e :: e in edges && IsSelected(e.node, p + [e.field], c)
  }

  lemma SelectedHere(n: Node, p: Path, c: Column)
    ensures IsSelected(n, p, c) <==> (c.table == p && c.field in n.columns) || IsSelectedBelow(n.edges, p, c)
  {
    if IsSelected(n, p, c) {
      var m :| Occurs(n, p, m, c.table) && c.field in m.columns;
      if !(m == n && c.table == p) {
        var e :| e in n.edges && Occurs(e.node, p + [e.field], m, c.table);
        assert IsSelected(e.node, p + [e.field], c);
      }
    }
    if c.table == p && c.field in n.columns {
      assert Occurs(n, p, n, p);
    }
    if IsSelectedBelow(n.edges, p, c) {
      var e :| e in n.edges && IsSelected(e.node, p + [e.field], c);
      var m :| Occurs(e.node, p + [e.field], m, c.table) && c.field in m.columns;
      assert Occurs(n, p, m, c.table);
    }
  }

  lemma {:induction false} ProjectionAdds(m: map<string, Column>, aliases: map<string, string>, n: Node, p: Path)
    requires SelfLabelled(aliases, m)
    ensures Adds(m, AddProjection(m, aliases, n, p), aliases, n, p)
    decreases n
  {
    var own := AddColumns(m, aliases, p, n.columns);
    ColumnsLabelled(m, aliases, p, n.columns);
    ProjectionsAdd(own, aliases, n.edges, p);
    var m' := AddProjection(m, aliases, n, p);
    forall c | IsSelected(n, p, c)
      ensures LabelOf(aliases, c.table, c.field) in m'
    {
      SelectedHere(n, p, c);
    }
    forall l | l in m'
      ensures (l in m && m'[l] == m[l]) || IsSelected(n, p, m'[l])
    {
      SelectedHere(n, p, m'[l]);
    }
  }

  lemma {:induction false} ProjectionsAdd(
      m: map<string, Column>, aliases: map<string, string>, edges: seq<Edge>, p: Path)
    requires SelfLabelled(aliases, m)
    ensures AddsBelow(m, AddProjections(m, aliases, edges, p), aliases, edges, p)
    decreases edges
  {
    if edges != [] {
      var e := edges[0];
      var first := AddProjection(m, aliases, e.node, p + [e.field]);
      ProjectionAdds(m, aliases, e.node, p + [e.field]);
      ProjectionsAdd(first, aliases, edges[1..], p);
      var m' := AddProjections(m, aliases, edges, p);
      forall l | l in m'
        ensures (l in m && m'[l] == m[l]) || IsSelectedBelow(edges, p, m'[l])
      {
        if IsSelectedBelow(edges[1..], p, m'[l]) {
          var d :| d in edges[1..] && IsSelected(d.node, p + [d.field], m'[l]);
          assert d in edges;
        } else {
          assert l in first && m'[l] == first[l];
        }
      }
      forall c, d | d in edges && IsSelected(d.node, p + [d.field], c)
        ensures LabelOf(aliases, c.table, c.field) in m'
      {
        assert d == e || d in edges[1..];
      }
    }
  }
}
