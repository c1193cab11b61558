/**
 The loader's tree of types, read back from the column labels and the alias cache, is the tree of the selection.
 */
module ColumnTree {
  import opened Truth
  import opened Names
  import opened Seqs
  import opened Loader
  import opened LoaderFold
  import opened AliasCache

  // ---------------------------------------------------------------- reading labels

  /** The first two parts of a label split at its dots; a label without a second part cannot be read. */
  function ReadLabel(reverse: map<string, string>, l: string): Option<(string, string)> {
    var alias, rest := BeforeFirst(l, '.'), AfterFirst(l, '.');
    if (forall c :: c in rest ==> c == '.') || alias !in reverse then None
    else Some((reverse[alias], BeforeFirst(rest, '.')))
  }

  predicate Readable(reverse: map<string, string>, labels: seq<string>) {
    forall l :: l in labels ==> ReadLabel(reverse, l).Some?
  }

  /** The columns found for one table path. */
  datatype TypeColumns = TypeColumns(key: Option<LabelledColumn>, values: seq<LabelledColumn>)

  function AddLabel(types: map<string, TypeColumns>, keys: map<string, string>, read: (string, string), l: string)
    : map<string, TypeColumns>
  {
    var (path, field) := read;
    var t := if path in types then types[path] else TypeColumns(None, []);
    types[path := if path in keys && keys[path] == field then t.(key := Some(LabelledColumn(l, field)))
                  else t.(values := t.values + [LabelledColumn(l, field)])]
  }

  function Types(reverse: map<string, string>, keys: map<string, string>, labels: seq<string>): map<string, TypeColumns>
    requires Readable(reverse, labels)
  {
    if labels == [] then map[]
    else
      var init, last := labels[..|labels| - 1], labels[|labels| - 1];
      AddLabel(Types(reverse, keys, init), keys, ReadLabel(reverse, last).value, last)
  }

  /** A type hangs under the path before its last dot. */
  function ParentOf(path: string): (r: Option<string>)
    ensures r.Some? ==> |r.value| < |path|
  {
    BeforeLastIsShort(path, '.');
    if BeforeLast(path, '.') == "" then None else Some(BeforeLast(path, '.'))
  }

  lemma {:induction false} BeforeLastIsShort(s: string, c: char)
    ensures s != "" ==> |BeforeLast(s, c)| < |s|
  {
    if s != "" && s[|s| - 1] != c {
      BeforeLastIsShort(s[..|s| - 1], c);
    }
  }

  function Longest(paths: seq<string>): (r: nat)
    ensures forall p :: p in paths ==> |p| <= r
  {
    if paths == [] then 0
    else
      var rest := Longest(paths[1..]);
      if |paths[0]| > rest then |paths[0]| else rest
  }

  /** The paths that hang under a path. */
  function ChildrenOf(paths: seq<string>, path: string): seq<string> {
    if paths == [] then []
    else
      var init, last := paths[..|paths| - 1], paths[|paths| - 1];
      ChildrenOf(init, path) + if ParentOf(last) == Some(path) then [last] else []
  }

  lemma {:induction false} ChildrenHang(paths: seq<string>, path: string, c: string)
    ensures c in ChildrenOf(paths, path) <==> c in paths && ParentOf(c) == Some(path)
    ensures ParentOf(c) == Some(path) ==> |path| < |c|
    decreases paths
  {
    if paths != [] {
      var init, last := paths[..|paths| - 1], paths[|paths| - 1];
      assert paths == init + [last];
      ChildrenHang(init, path, c);
    }
  }

  predicate AllKeyed(types: map<string, TypeColumns>, paths: seq<string>) {
    forall p :: p in paths ==> p in types && types[p].key.Some?
  }

  /** The tree under a path, its types in the order in which the map of types lists them. */
  function Assemble(types: map<string, TypeColumns>, paths: seq<string>, path: string): RowObject
    requires AllKeyed(types, paths) && path in paths
    decreases Longest(paths) - |path|
  {
    var below := ChildrenOf(paths, path);
    RowObject(path, if ParentOf(path).Some? then AfterLast(path, '.') else "",
              types[path].key.value, types[path].values,
              seq(|below|, i requires 0 <= i < |below| =>
                ChildrenHang(paths, path, below[i]); Assemble(types, paths, below[i])))
  }

  datatype ColumnsRead =
    | ColumnsRead(root: string, types: map<string, TypeColumns>)
    | NoRootObject
    | Unreadable

  /** The columns of the result set are dealt out to the tables their aliases stand for. */
  method ParseColumns(labels: seq<string>, aliasCache: SQLAliasCache) returns (r: ColumnsRead)
    requires aliasCache.Valid()
    ensures r.Unreadable? <==> !Readable(aliasCache.reverseAliasMapping, labels)
    ensures !r.Unreadable? ==>
              var types := Types(aliasCache.reverseAliasMapping, aliasCache.tablePathKey, labels);
              r == if aliasCache.order != [] && aliasCache.order[0].name in types
                   then ColumnsRead(aliasCache.order[0].name, types) else NoRootObject
  {
    var reverse, keys := aliasCache.reverseAliasMapping, aliasCache.tablePathKey;
    var types, root := map[], None;
    for i := 0 to |labels|
      invariant Readable(reverse, labels[..i]) && types == Types(reverse, keys, labels[..i])
      invariant root == if aliasCache.order != [] && aliasCache.order[0].name in types
                        then Some(aliasCache.order[0].name) else None
    {
      assert labels[..i + 1][..i] == labels[..i] && labels[..i + 1][i] == labels[i];
      var l := labels[i];
      var read := ReadLabel(reverse, l);
      if read.None? {
        return Unreadable;
      }
      var path := read.value.0;
      if path !in types && aliasCache.rootObjectAlias == Some(BeforeFirst(l, '.')) {
        root := Some(path);
      }
      RootByAlias(aliasCache.order, BeforeFirst(l, '.'));
      types := AddLabel(types, keys, read.value, l);
    }
    assert labels[..|labels|] == labels;
    return if root.Some? then ColumnsRead(root.value, types) else NoRootObject;
  }

  /** Every path is added to the children of its parent, when there is one. */
  method LinkChildren(paths: seq<string>) returns (children: map<string, seq<string>>)
    ensures forall p :: p in paths ==> p in children && children[p] == ChildrenOf(paths, p)
  {
    children := map p | p in paths :: [];
    for i := 0 to |paths|
      invariant Linking(children, paths, paths[..i])
    {
      var parent := ParentOf(paths[i]);
      LinkStep(children, paths, i);
      if parent.Some? && parent.value in children {
        children := children[parent.value := children[parent.value] + [paths[i]]];
      }
    }
    assert paths[..|paths|] == paths;
  }

  /** The children lists hold what hangs under each path among the paths done. */
  ghost predicate Linking(children: map<string, seq<string>>, paths: seq<string>, done: seq<string>) {
    (forall p :: p in paths <==> p in children) && forall p | p in children :: children[p] == ChildrenOf(done, p)
  }

  lemma LinkStep(children: map<string, seq<string>>, paths: seq<string>, i: nat)
    requires i < |paths| && Linking(children, paths, paths[..i])
    ensures var parent := ParentOf(paths[i]);
            Linking(if parent.Some? && parent.value in children
                    then children[parent.value := children[parent.value] + [paths[i]]] else children,
                    paths, paths[..i + 1])
  {
    forall p | p in children
      ensures ChildrenOf(paths[..i + 1], p) ==
                if ParentOf(paths[i]) == Some(p) then children[p] + [paths[i]] else children[p]
    {
      ChildrenGrow(paths, i, p);
    }
  }

  lemma ChildrenGrow(paths: seq<string>, i: nat, p: string)
    requires i < |paths|
    ensures ChildrenOf(paths[..i + 1], p) ==
              ChildrenOf(paths[..i], p) + if ParentOf(paths[i]) == Some(p) then [paths[i]] else []
  {
    assert paths[..i + 1][..i] == paths[..i];
  }

  /** The alias of the root is the alias of the first named table, and of no other. */
  lemma RootByAlias(order: seq<Entry>, alias: string)
    requires DistinctEntries(order) && alias in Reversed(order)
    ensures order != [] && (alias == Alias(0) <==> Reversed(order)[alias] == order[0].name)
  {
    AliasIndex(order, alias);
    var i: nat :| 0 <= i < |order| && alias == Alias(i);
    AliasIsInjective(i, 0);
    PositionIndex(order, i);
    PositionIndex(order, 0);
  }

  // ---------------------------------------------------------------- the columns of one path

  predicate ReadsAs(reverse: map<string, string>, l: string, path: string, field: string) {
    ReadLabel(reverse, l) == Some((path, field))
  }

  predicate IsKey(keys: map<string, string>, path: string, field: string) {
    path in keys && keys[path] == field
  }

  lemma {:induction false} TypesAt(
      reverse: map<string, string>, keys: map<string, string>, labels: seq<string>, path: string)
    requires Readable(reverse, labels)
    ensures var types := Types(reverse, keys, labels);
            (path in types <==> exists l, f :: l in labels && ReadsAs(reverse, l, path, f)) &&
            (path in types ==>
               (forall c :: c in types[path].values <==>
                  c.columnLabel in labels && ReadsAs(reverse, c.columnLabel, path, c.name) &&
                  !IsKey(keys, path, c.name)) &&
               (forall l, f :: l in labels && ReadsAs(reverse, l, path, f) && IsKey(keys, path, f) ==>
                  types[path].key.Some?) &&
               (types[path].key.Some? ==>
                  var k := types[path].key.value;
                  k.columnLabel in labels && ReadsAs(reverse, k.columnLabel, path, k.name) &&
                  IsKey(keys, path, k.name)))
    decreases labels
  {
    if labels != [] {
      var init, last := labels[..|labels| - 1], labels[|labels| - 1];
      assert forall l :: l in labels <==> l in init || l == last;
      TypesAt(reverse, keys, init, path);
      assert ReadsAs(reverse, last, ReadLabel(reverse, last).value.0, ReadLabel(reverse, last).value.1);
    }
  }

  lemma {:induction false} ValuesDiffer(
      reverse: map<string, string>, keys: map<string, string>, labels: seq<string>, path: string)
    requires Readable(reverse, labels) && Distinct(labels) && path in Types(reverse, keys, labels)
    requires forall l, l' :: l in labels && l' in labels && ReadLabel(reverse, l) == ReadLabel(reverse, l') ==> l == l'
    ensures DistinctNames(Types(reverse, keys, labels)[path].values)
    decreases labels
  {
    var init, last := labels[..|labels| - 1], labels[|labels| - 1];
    assert forall l :: l in init ==> l in labels && l != last;
    assert last in labels;
    var before, read := Types(reverse, keys, init), ReadLabel(reverse, last).value;
    if path in before {
      ValuesDiffer(reverse, keys, init, path);
      TypesAt(reverse, keys, init, path);
      NewNameDiffers(reverse, init, last, path, before[path].values);
    }
    LabelAdds(before, keys, read, last, path);
  }

  /** A label whose name is new at its path leaves the names of every path different. */
  lemma LabelAdds(
      types: map<string, TypeColumns>, keys: map<string, string>, read: (string, string), l: string, path: string)
    requires path in AddLabel(types, keys, read, l) && (path in types ==> DistinctNames(types[path].values))
    requires path in types && read.0 == path ==> forall c :: c in types[path].values ==> c.name != read.1
    ensures DistinctNames(AddLabel(types, keys, read, l)[path].values)
  {
    if path in types {
      var known := types[path].values;
      assert forall i :: 0 <= i < |known| ==> known[i] in known;
    }
  }

  /** The name of a label that is not among those read so far is new. */
  lemma NewNameDiffers(
      reverse: map<string, string>, init: seq<string>, last: string, path: string, values: seq<LabelledColumn>)
    requires ReadLabel(reverse, last).Some?
    requires forall c :: c in values ==> c.columnLabel in init && ReadsAs(reverse, c.columnLabel, path, c.name)
    requires forall l :: l in init ==> ReadLabel(reverse, l) != ReadLabel(reverse, last)
    ensures ReadLabel(reverse, last).value.0 == path ==>
              forall c :: c in values ==> c.name != ReadLabel(reverse, last).value.1
  {
  }
}
