/** Labels there and back: the tree of types the loader works with mirrors the compiled selection. */
module LabelRoundTrip {
  import opened Truth
  import opened Names
  import opened Seqs
  import opened Filters
  import opened Query
  import opened Statement
  import opened Loader
  import opened LoaderFold
  import opened LoaderLaws
  import opened Rebuild
  import opened AliasCache
  import opened SimpleParser
  import opened Labels
  import opened ColumnTree
  import opened ColumnLaws

  /** The labelled columns of a request. */
  function LabelsOf(q: Request): map<string, Column> {
    AddProjection(map[], Numbered(OrderOf(q)), q.root, RootPath(q))
  }

  /** The paths the alias cache flags as has-many. */
  function ManyOf(q: Request): set<string> {
    set n | n in Flags(OrderOf(q)) && Flags(OrderOf(q))[n]
  }

  function LabelIn(q: Request, c: Column): string {
    LabelOf(Numbered(OrderOf(q)), c.table, c.field)
  }

  /** The columns of the result set, in any order. */
  predicate Printed(q: Request, labels: seq<string>) {
    Distinct(labels) && (forall l :: l in labels ==> l in LabelsOf(q)) && forall l | l in LabelsOf(q) :: l in labels
  }

  lemma LabelsAdd(q: Request)
    ensures Adds(map[], LabelsOf(q), Numbered(OrderOf(q)), q.root, RootPath(q))
  {
    ProjectionAdds(map[], Numbered(OrderOf(q)), q.root, RootPath(q));
  }

  lemma LabelReads(q: Request, c: Column)
    requires Proper(q) && IsSelected(q.root, RootPath(q), c)
    ensures ReadsAs(Reversed(OrderOf(q)), LabelIn(q, c), Dotted(c.table), c.field)
  {
    var m :| Occurs(q.root, RootPath(q), m, c.table) && c.field in m.columns;
    TypeNamed(q, m, c.table);
    TypeHasAlias(q, m, c.table);
    var alias := Numbered(OrderOf(q))[Dotted(c.table)];
    assert LabelIn(q, c) == alias + ['.'] + c.field;
    SplitsFirst(alias, '.', c.field);
    NoSeparator(c.field, '.');
    assert c.field[0] in c.field;
  }

  lemma {:induction false} NoSeparator(s: string, c: char)
    requires c !in s
    ensures BeforeFirst(s, c) == s && BeforeLast(s, c) == ""
  {
    if s != "" {
      NoSeparator(s[1..], c);
      NoSeparator(s[..|s| - 1], c);
    }
  }

  /** A label stands for one column of the selection, and every column has its label. */
  lemma LabelStands(q: Request, c: Column)
    requires Proper(q) && IsSelected(q.root, RootPath(q), c)
    ensures LabelIn(q, c) in LabelsOf(q) && LabelsOf(q)[LabelIn(q, c)] == c
  {
    LabelsAdd(q);
    var c' := LabelsOf(q)[LabelIn(q, c)];
    LabelReads(q, c);
    LabelReads(q, c');
    var m :| Occurs(q.root, RootPath(q), m, c.table) && c.field in m.columns;
    var m' :| Occurs(q.root, RootPath(q), m', c'.table) && c'.field in m'.columns;
    SamePathSameType(q, m, c.table, m', c'.table);
  }

  lemma PrintedReads(q: Request, labels: seq<string>, l: string)
    requires Proper(q) && Printed(q, labels) && l in labels
    ensures IsSelected(q.root, RootPath(q), LabelsOf(q)[l]) && LabelIn(q, LabelsOf(q)[l]) == l
    ensures ReadsAs(Reversed(OrderOf(q)), l, Dotted(LabelsOf(q)[l].table), LabelsOf(q)[l].field)
  {
    LabelsAdd(q);
    LabelReads(q, LabelsOf(q)[l]);
  }

  lemma PrintedReadable(q: Request, labels: seq<string>)
    requires Proper(q) && Printed(q, labels)
    ensures Readable(Reversed(OrderOf(q)), labels)
    ensures forall l, l' | l in labels && l' in labels &&
                           ReadLabel(Reversed(OrderOf(q)), l) == ReadLabel(Reversed(OrderOf(q)), l') :: l == l'
  {
    forall l | l in labels
      ensures ReadLabel(Reversed(OrderOf(q)), l).Some?
    {
      PrintedReads(q, labels, l);
    }
    forall l, l' | l in labels && l' in labels &&
                   ReadLabel(Reversed(OrderOf(q)), l) == ReadLabel(Reversed(OrderOf(q)), l')
      ensures l == l'
    {
      PrintedReads(q, labels, l);
      PrintedReads(q, labels, l');
      var c, c' := LabelsOf(q)[l], LabelsOf(q)[l'];
      var m :| Occurs(q.root, RootPath(q), m, c.table) && c.field in m.columns;
      var m' :| Occurs(q.root, RootPath(q), m', c'.table) && c'.field in m'.columns;
      SamePathSameType(q, m, c.table, m', c'.table);
    }
  }

  // ---------------------------------------------------------------- the types read back

  function TypesRead(q: Request, labels: seq<string>): map<string, TypeColumns>
    requires Readable(Reversed(OrderOf(q)), labels)
  {
    Types(Reversed(OrderOf(q)), KeysOf(q), labels)
  }

  /** A column label of a type of the selection is one of its columns. */
  lemma ReadColumn(q: Request, labels: seq<string>, m: Node, p: Path, c: LabelledColumn)
    requires Proper(q) && Printed(q, labels) && Type(q, m, p)
    requires c.columnLabel in labels && ReadsAs(Reversed(OrderOf(q)), c.columnLabel, Dotted(p), c.name)
    ensures Shown(LabelsOf(q), c, p) && c.name in m.columns
  {
    PrintedReads(q, labels, c.columnLabel);
    var column := LabelsOf(q)[c.columnLabel];
    var m' :| Occurs(q.root, RootPath(q), m', column.table) && column.field in m'.columns;
    SamePathSameType(q, m, p, m', column.table);
  }

  /** The columns of a type are labelled, and read back as its own. */
  lemma ColumnRead(q: Request, labels: seq<string>, m: Node, p: Path, f: string)
    requires Proper(q) && Printed(q, labels) && Type(q, m, p) && f in m.columns
    ensures LabelIn(q, Column(p, f)) in labels && ReadsAs(Reversed(OrderOf(q)), LabelIn(q, Column(p, f)), Dotted(p), f)
  {
    assert IsSelected(q.root, RootPath(q), Column(p, f));
    LabelStands(q, Column(p, f));
    LabelReads(q, Column(p, f));
  }

  /** A type's key column and its other columns are read back, each once. */
  lemma TypeIsRead(q: Request, labels: seq<string>, m: Node, p: Path)
    requires Proper(q) && Printed(q, labels) && Type(q, m, p)
    ensures Readable(Reversed(OrderOf(q)), labels) && Dotted(p) in TypesRead(q, labels)
    ensures var t := TypesRead(q, labels)[Dotted(p)];
            t.key.Some? && t.key.value.name == m.key && Shown(LabelsOf(q), t.key.value, p) &&
            NamesOf(t.values) == (set f | f in m.columns && f != m.key) && DistinctNames(t.values) &&
            forall c :: c in t.values ==> Shown(LabelsOf(q), c, p)
  {
    var reverse, keys := Reversed(OrderOf(q)), KeysOf(q);
    PrintedReadable(q, labels);
    TypeNamed(q, m, p);
    TypesAt(reverse, keys, labels, Dotted(p));
    KeyIs(q, m, p);
    ColumnRead(q, labels, m, p, m.key);
    var t := TypesRead(q, labels)[Dotted(p)];
    ReadColumn(q, labels, m, p, t.key.value);
    forall c | c in t.values
      ensures Shown(LabelsOf(q), c, p) && c.name in m.columns && c.name != m.key
    {
      ReadColumn(q, labels, m, p, c);
    }
    forall f | f in m.columns && f != m.key
      ensures f in NamesOf(t.values)
    {
      ColumnRead(q, labels, m, p, f);
      assert LabelledColumn(LabelIn(q, Column(p, f)), f) in t.values;
    }
    ValuesDiffer(reverse, keys, labels, Dotted(p));
  }

  /** Only types of the selection are read back. */
  lemma ReadIsType(q: Request, labels: seq<string>, path: string) returns (m: Node, p: Path)
    requires Proper(q) && Printed(q, labels) && Readable(Reversed(OrderOf(q)), labels) && path in TypesRead(q, labels)
    ensures Type(q, m, p) && path == Dotted(p)
  {
    TypesAt(Reversed(OrderOf(q)), KeysOf(q), labels, path);
    var l, f :| l in labels && ReadsAs(Reversed(OrderOf(q)), l, path, f);
    PrintedReads(q, labels, l);
    p := LabelsOf(q)[l].table;
    m :| Occurs(q.root, RootPath(q), m, p) && LabelsOf(q)[l].field in m.columns;
  }

  // ---------------------------------------------------------------- the tree read back

  lemma {:induction false} DottedIsLong(p: Path)
    requires p != [] && AreNames(p)
    ensures Dotted(p) != ""
  {
    assert p[0] in p;
  }

  lemma ParentIs(p: Path, f: string)
    requires p != [] && AreNames(p) && IsName(f)
    ensures ParentOf(Dotted(p + [f])) == Some(Dotted(p)) && AfterLast(Dotted(p + [f]), '.') == f
  {
    DottedSplits(p, f);
    DottedIsLong(p);
  }

  lemma RootHasNoParent(q: Request)
    requires Proper(q)
    ensures ParentOf(q.root.table) == None
  {
    NoSeparator(q.root.table, '.');
  }

  /** The paths that hang under a type's path are those of its relationships. */
  lemma HangsUnder(q: Request, m: Node, p: Path, m': Node, p': Path) returns (e: Edge)
    requires Proper(q) && Type(q, m, p) && Type(q, m', p') && ParentOf(Dotted(p')) == Some(Dotted(p))
    ensures e in m.edges && m' == e.node && p' == p + [e.field]
  {
    RootName(q);
    RootHasNoParent(q);
    TypeNamed(q, m', p');
    var parent;
    parent, e := ParentOccurs(q.root, RootPath(q), m', p');
    var up := p'[..|p'| - 1];
    TypeNamed(q, parent, up);
    ParentIs(up, e.field);
    SamePathSameType(q, m, p, parent, up);
  }

  /** The paths of the types read back, in any order. */
  predicate Lists(q: Request, labels: seq<string>, paths: seq<string>)
    requires Readable(Reversed(OrderOf(q)), labels)
  {
    Distinct(paths) && (forall p :: p in paths ==> p in TypesRead(q, labels)) &&
    forall p | p in TypesRead(q, labels) :: p in paths
  }

  lemma AllAreKeyed(q: Request, labels: seq<string>, paths: seq<string>)
    requires Proper(q) && Printed(q, labels) && Readable(Reversed(OrderOf(q)), labels) && Lists(q, labels, paths)
    ensures AllKeyed(TypesRead(q, labels), paths)
  {
    forall path | path in paths
      ensures path in TypesRead(q, labels) && TypesRead(q, labels)[path].key.Some?
    {
      var m, p := ReadIsType(q, labels, path);
      TypeIsRead(q, labels, m, p);
    }
  }

  /** No type of the tree has two columns or two fields of one name. */
  predicate Tidy(r: RowObject) {
    DistinctNames(r.values) && DistinctChildren(r.children) && forall c :: c in r.children ==> Tidy(c)
  }

  lemma {:induction false} ChildrenDiffer(paths: seq<string>, path: string)
    requires Distinct(paths)
    ensures Distinct(ChildrenOf(paths, path))
    decreases paths
  {
    if paths != [] {
      var init, last := paths[..|paths| - 1], paths[|paths| - 1];
      ChildrenDiffer(init, path);
      forall c | c in ChildrenOf(init, path)
        ensures c != last
      {
        ChildrenHang(init, path, c);
        var i :| 0 <= i < |init| && init[i] == c;
        assert paths[i] == c;
      }
      assert forall k :: 0 <= k < |ChildrenOf(init, path)| ==> ChildrenOf(init, path)[k] in ChildrenOf(init, path);
    }
  }

  /** A child of the tree under a type, with the relationship it stands for. */
  lemma ChildRead(q: Request, labels: seq<string>, paths: seq<string>, m: Node, p: Path, i: nat) returns (e: Edge)
    requires Proper(q) && Printed(q, labels) && Readable(Reversed(OrderOf(q)), labels) && Lists(q, labels, paths)
    requires AllKeyed(TypesRead(q, labels), paths) && Type(q, m, p) && Dotted(p) in paths
    requires i < |ChildrenOf(paths, Dotted(p))|
    ensures var r, path := Assemble(TypesRead(q, labels), paths, Dotted(p)), ChildrenOf(paths, Dotted(p))[i];
            e in m.edges && path == Dotted(p + [e.field]) && path in paths && Type(q, e.node, p + [e.field]) &&
            |r.children| == |ChildrenOf(paths, Dotted(p))| &&
            r.children[i] == Assemble(TypesRead(q, labels), paths, path) &&
            r.children[i].parentField == e.field && r.children[i].path == path
  {
    var path := ChildrenOf(paths, Dotted(p))[i];
    ChildrenHang(paths, Dotted(p), path);
    var m', p' := ReadIsType(q, labels, path);
    e := HangsUnder(q, m, p, m', p');
    TypeNamed(q, m, p);
    ParentIs(p, e.field);
  }

  /** Every relationship of a type has its child in the tree. */
  lemma FieldRead(q: Request, labels: seq<string>, paths: seq<string>, m: Node, p: Path, e: Edge) returns (i: nat)
    requires Proper(q) && Printed(q, labels) && Readable(Reversed(OrderOf(q)), labels) && Lists(q, labels, paths)
    requires Type(q, m, p) && Dotted(p) in paths && e in m.edges
    ensures i < |ChildrenOf(paths, Dotted(p))| && ChildrenOf(paths, Dotted(p))[i] == Dotted(p + [e.field])
  {
    OccursInside(q.root, RootPath(q), m, p, e);
    TypeNamed(q, m, p);
    TypeIsRead(q, labels, e.node, p + [e.field]);
    ParentIs(p, e.field);
    ChildrenHang(paths, Dotted(p), Dotted(p + [e.field]));
    i :| 0 <= i < |ChildrenOf(paths, Dotted(p))| && ChildrenOf(paths, Dotted(p))[i] == Dotted(p + [e.field]);
  }

  /** The tree read from the labels, below any type: types, keys, columns, fields and flags of the selection. */
  lemma {:induction false} Mirrored(q: Request, labels: seq<string>, paths: seq<string>, m: Node, p: Path)
    requires Proper(q) && Printed(q, labels) && Readable(Reversed(OrderOf(q)), labels) && Lists(q, labels, paths)
    requires AllKeyed(TypesRead(q, labels), paths) && Type(q, m, p) && Dotted(p) in paths
    ensures Mirrors(Assemble(TypesRead(q, labels), paths, Dotted(p)), m, p, LabelsOf(q), ManyOf(q))
    ensures Tidy(Assemble(TypesRead(q, labels), paths, Dotted(p)))
    decreases m
  {
    var r := Assemble(TypesRead(q, labels), paths, Dotted(p));
    TypeNamed(q, m, p);
    TypeIsRead(q, labels, m, p);
    forall i | 0 <= i < |r.children|
      ensures r.children[i].parentField in EdgeFields(m.edges) && Tidy(r.children[i])
      ensures forall e :: e in m.edges && e.field == r.children[i].parentField ==>
                (r.children[i].path in ManyOf(q) <==> e.hasMany) &&
                Mirrors(r.children[i], e.node, p + [e.field], LabelsOf(q), ManyOf(q))
    {
      var e := ChildRead(q, labels, paths, m, p, i);
      Mirrored(q, labels, paths, e.node, p + [e.field]);
      FlagIs(q, m, p, e);
      forall d | d in m.edges && d.field == e.field
        ensures d == e
      {
        SameEdgeField(m.edges, d, e);
      }
    }
    FieldsRead(q, labels, paths, m, p);
  }

  lemma FieldsRead(q: Request, labels: seq<string>, paths: seq<string>, m: Node, p: Path)
    requires Proper(q) && Printed(q, labels) && Readable(Reversed(OrderOf(q)), labels) && Lists(q, labels, paths)
    requires AllKeyed(TypesRead(q, labels), paths) && Type(q, m, p) && Dotted(p) in paths
    ensures var r := Assemble(TypesRead(q, labels), paths, Dotted(p));
            FieldsOf(r.children) == EdgeFields(m.edges) && DistinctChildren(r.children)
  {
    var r := Assemble(TypesRead(q, labels), paths, Dotted(p));
    forall e | e in m.edges
      ensures e.field in FieldsOf(r.children)
    {
      FieldIsThere(q, labels, paths, m, p, e);
    }
    forall c | c in r.children
      ensures c.parentField in EdgeFields(m.edges)
    {
      var i :| 0 <= i < |r.children| && r.children[i] == c;
      var e := ChildRead(q, labels, paths, m, p, i);
    }
    ChildrenDiffer(paths, Dotted(p));
    forall i, k | 0 <= i < k < |r.children|
      ensures r.children[i].parentField != r.children[k].parentField
    {
      var e := ChildRead(q, labels, paths, m, p, i);
      var d := ChildRead(q, labels, paths, m, p, k);
    }
  }

  lemma FieldIsThere(q: Request, labels: seq<string>, paths: seq<string>, m: Node, p: Path, e: Edge)
    requires Proper(q) && Printed(q, labels) && Readable(Reversed(OrderOf(q)), labels) && Lists(q, labels, paths)
    requires AllKeyed(TypesRead(q, labels), paths) && Type(q, m, p) && Dotted(p) in paths && e in m.edges
    ensures e.field in FieldsOf(Assemble(TypesRead(q, labels), paths, Dotted(p)).children)
  {
    var r := Assemble(TypesRead(q, labels), paths, Dotted(p));
    var i := FieldRead(q, labels, paths, m, p, e);
    var d := ChildRead(q, labels, paths, m, p, i);
    TypeNamed(q, m, p);
    ParentIs(p, e.field);
    ParentIs(p, d.field);
    assert r.children[i] in r.children && r.children[i].parentField == e.field;
  }

  // ---------------------------------------------------------------- paths of the tree

  /** A path of a mirrored tree is the path of its type or of a type below it. */
  lemma {:induction false} PathsAreBelow(
      r: RowObject, n: Node, p: Path, labels: map<string, Column>, many: set<string>, path: string) returns (at: Path)
    requires Mirrors(r, n, p, labels, many) && WellNamed(n) && p != [] && AreNames(p) && path in PathsOf(r)
    ensures path == Dotted(at) && AreNames(at) && (at == p || Below(at, p))
    decreases r
  {
    at := p;
    if path != r.path {
      var c := OwnerOf(r.children, path);
      assert c.parentField in FieldsOf(r.children);
      var e :| e in n.edges && e.field == c.parentField;
      at := PathsAreBelow(c, e.node, p + [e.field], labels, many, path);
      if at == p + [e.field] {
        assert at[..|p|] == p;
      } else {
        BelowField(at, p, e.field);
      }
    }
  }

  lemma {:induction false} OwnerOf(rs: seq<RowObject>, path: string) returns (c: RowObject)
    requires path in PathsOfAll(rs)
    ensures c in rs && path in PathsOf(c)
    decreases rs
  {
    if path in PathsOf(rs[0]) {
      c := rs[0];
    } else {
      c := OwnerOf(rs[1..], path);
    }
  }

  /** A path under one child is not a path under another, nor the parent's own. */
  lemma ChildPathsApart(
      r: RowObject, n: Node, p: Path, labels: map<string, Column>, many: set<string>, i: nat, k: nat, path: string)
    requires Mirrors(r, n, p, labels, many) && Tidy(r) && WellNamed(n) && p != [] && AreNames(p)
    requires i < |r.children| && k < |r.children| && path in PathsOf(r.children[i])
    ensures path != r.path && (path in PathsOf(r.children[k]) ==> i == k)
  {
    var at := PathUnder(r, n, p, labels, many, i, path);
    DottedIsInjective(at, p);
    if path in PathsOf(r.children[k]) {
      var at' := PathUnder(r, n, p, labels, many, k, path);
      DottedIsInjective(at, at');
    }
  }

  lemma PathUnder(
      r: RowObject, n: Node, p: Path, labels: map<string, Column>, many: set<string>, i: nat, path: string)
      returns (at: Path)
    requires Mirrors(r, n, p, labels, many) && WellNamed(n) && p != [] && AreNames(p)
    requires i < |r.children| && path in PathsOf(r.children[i])
    ensures path == Dotted(at) && AreNames(at) && Below(at, p) && at[|p|] == r.children[i].parentField
  {
    var c := r.children[i];
    assert c in r.children && c.parentField in FieldsOf(r.children);
    var e :| e in n.edges && e.field == c.parentField;
    at := PathsAreBelow(c, e.node, p + [e.field], labels, many, path);
    if at == p + [e.field] {
      assert at[..|p|] == p;
    } else {
      BelowField(at, p, e.field);
    }
  }

  /** The tree of a selection has one type per path and no clashing names. */
  lemma {:induction false} MirrorsIsClean(
      r: RowObject, n: Node, p: Path, labels: map<string, Column>, many: set<string>)
    requires Mirrors(r, n, p, labels, many) && Tidy(r) && WellNamed(n) && p != [] && AreNames(p)
    ensures Clean(r) && AllApart(r)
    decreases r
  {
    forall i | 0 <= i < |r.children|
      ensures Clean(r.children[i]) && AllApart(r.children[i])
    {
      var c := r.children[i];
      assert c in r.children && c.parentField in FieldsOf(r.children);
      var e :| e in n.edges && e.field == c.parentField;
      MirrorsIsClean(c, e.node, p + [e.field], labels, many);
    }
    ChildrenClean(r, n, p, labels, many, 0);
    DottedHasNoEquals(p);
    if r.path in PathsOfAll(r.children) {
      var c := OwnerOf(r.children, r.path);
      var i :| 0 <= i < |r.children| && r.children[i] == c;
      ChildPathsApart(r, n, p, labels, many, i, i, r.path);
    }
    assert r.children[0..] == r.children;
  }

  lemma {:induction false} ChildrenClean(
      r: RowObject, n: Node, p: Path, labels: map<string, Column>, many: set<string>, k: nat)
    requires Mirrors(r, n, p, labels, many) && Tidy(r) && WellNamed(n) && p != [] && AreNames(p) && k <= |r.children|
    requires forall i :: 0 <= i < |r.children| ==> Clean(r.children[i])
    ensures CleanAll(r.children[k..])
    decreases |r.children| - k
  {
    if k < |r.children| {
      ChildrenClean(r, n, p, labels, many, k + 1);
      var rest := r.children[k + 1..];
      assert r.children[k..][1..] == rest;
      forall path | path in PathsOf(r.children[k]) && path in PathsOfAll(rest)
        ensures false
      {
        var c := OwnerOf(rest, path);
        var i :| 0 <= i < |rest| && rest[i] == c;
        ChildPathsApart(r, n, p, labels, many, k, k + 1 + i, path);
      }
    }
  }

  /**
   Labels round trip: the tree read from the printed labels and the alias cache has one root, no orphan and a key
   column at every type, and mirrors the selection.
   */
  lemma LabelsRoundTrip(q: Request, labels: seq<string>, paths: seq<string>)
    requires Proper(q) && Printed(q, labels)
    requires Readable(Reversed(OrderOf(q)), labels) ==> Lists(q, labels, paths)
    ensures Readable(Reversed(OrderOf(q)), labels) && AllKeyed(TypesRead(q, labels), paths) && q.root.table in paths
    ensures forall path :: path in paths && ParentOf(path) == None ==> path == q.root.table
    ensures forall path :: path in paths && ParentOf(path).Some? ==> ParentOf(path).value in paths
    ensures var root := Assemble(TypesRead(q, labels), paths, q.root.table);
            Mirrors(root, q.root, RootPath(q), LabelsOf(q), ManyOf(q)) && Clean(root) && AllApart(root)
  {
    PrintedReadable(q, labels);
    AllAreKeyed(q, labels, paths);
    RootName(q);
    assert Type(q, q.root, RootPath(q));
    TypeIsRead(q, labels, q.root, RootPath(q));
    Mirrored(q, labels, paths, q.root, RootPath(q));
    MirrorsIsClean(Assemble(TypesRead(q, labels), paths, q.root.table), q.root, RootPath(q), LabelsOf(q), ManyOf(q));
    forall path | path in paths && path != q.root.table
      ensures ParentOf(path).Some? && ParentOf(path).value in paths
    {
      var m, p := ReadIsType(q, labels, path);
      var parent, e := ParentOccurs(q.root, RootPath(q), m, p);
      TypeNamed(q, parent, p[..|p| - 1]);
      TypeNamed(q, m, p);
      ParentIs(p[..|p| - 1], e.field);
      TypeIsRead(q, labels, parent, p[..|p| - 1]);
    }
    RootHasNoParent(q);
  }
}
