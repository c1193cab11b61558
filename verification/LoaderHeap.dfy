/** The loader as it runs: result objects are shared, and every row updates them in place. */
module LoaderHeap {
  import opened Truth
  import opened Loader
  import opened LoaderLaws
  import opened Query
  import opened Rebuild

  /** A field of a result object: a value, a set of objects ordered by hash code, or one object. */
  datatype HeapField = ScalarField(v: Value) | ManyField(members: seq<ResultObject>) | OneField(member: ResultObject)

  /** TreeSet.add on objects that compare by the hash code of their hash. */
  function TreeAddObject(members: seq<ResultObject>, o: ResultObject): (r: seq<ResultObject>)
    ensures forall m :: m in r ==> m in members || m == o
  {
    if members == [] then [o]
    else if JavaHash(o.hash) == JavaHash(members[0].hash) then members
    else if JavaHash(o.hash) < JavaHash(members[0].hash) then [o] + members
    else [members[0]] + TreeAddObject(members[1..], o)
  }

  function Hashes(members: seq<ResultObject>): seq<string> {
    seq(|members|, i requires 0 <= i < |members| => members[i].hash)
  }

  lemma {:induction false} HashesOfTreeAdd(members: seq<ResultObject>, o: ResultObject)
    ensures Hashes(TreeAddObject(members, o)) == TreeAdd(Hashes(members), o.hash)
    decreases members
  {
    if members != [] {
      assert Hashes(members)[1..] == Hashes(members[1..]);
      HashesOfTreeAdd(members[1..], o);
    }
  }

  /** A field with its references replaced by the cache keys of the objects. */
  function FieldView(f: HeapField): Field {
    match f
    case ScalarField(v) => Scalar(v)
    case ManyField(members) => Many(Hashes(members))
    case OneField(member) => One(member.hash)
  }

  /** The fields of an object, field by field. */
  ghost predicate Represents(fields: map<string, HeapField>, x: Object) {
    fields.Keys == x.Keys && forall f :: f in fields ==> FieldView(fields[f]) == x[f]
  }

  function MembersOf(f: HeapField): seq<ResultObject> {
    match f
    case ScalarField(_) => []
    case ManyField(members) => members
    case OneField(member) => [member]
  }

  ghost predicate RefersIn(objects: set<ResultObject>, fields: map<string, HeapField>) {
    forall f, m :: f in fields && m in MembersOf(fields[f]) ==> m in objects
  }

  class ResultObject {
    const hash: string
    var fields: map<string, HeapField>

    constructor (hash: string)
      ensures this.hash == hash && fields == map[]
    {
      this.hash := hash;
      fields := map[];
    }

    /** The object stands for x and refers to these objects only. */
    ghost predicate Is(x: Object, objects: set<ResultObject>)
      reads this
    {
      Represents(fields, x) && RefersIn(objects, fields)
    }

    method Put(field: string, value: HeapField, ghost x: Object, ghost objects: set<ResultObject>)
      requires Is(x, objects) && (forall m :: m in MembersOf(value) ==> m in objects)
      modifies this
      ensures Is(x[field := FieldView(value)], objects)
    {
      fields := fields[field := value];
    }

    /** A value is put when the object has none yet, or NULL. */
    method FillValues(values: seq<LabelledColumn>, row: ResultRow, ghost x: Object, ghost objects: set<ResultObject>)
      requires Is(x, objects)
      modifies this
      ensures Is(Fill(x, values, row), objects)
    {
      ghost var now := x;
      for i := 0 to |values|
        invariant Is(now, objects) && Fill(now, values[i..], row) == Fill(x, values, row)
      {
        var c := values[i];
        if c.name !in fields || fields[c.name] == ScalarField(Null) {
          Put(c.name, ScalarField(Get(row, c.columnLabel)), now, objects);
          now := now[c.name := Scalar(Get(row, c.columnLabel))];
        }
        assert values[i..][1..] == values[i + 1..];
      }
      assert values[|values|..] == [];
    }

    /** The child of the row joins the set under its field, or takes the place of the previous one. */
    method LinkChild(
        child: RowObject, childObject: Option<ResultObject>, many: set<string>, ghost x: Object,
        ghost objects: set<ResultObject>)
      requires Is(x, objects) && (childObject.Some? ==> childObject.value in objects)
      modifies this
      ensures Is(Link(x, child, if childObject.Some? then Some(childObject.value.hash) else None, many), objects)
    {
      var field := child.parentField;
      ghost var now := x;
      if field !in fields && child.path in many {
        Put(field, ManyField([]), x, objects);
        assert Hashes([]) == [];
        now := x[field := Many([])];
      }
      if childObject.None? {
        return;
      }
      if child.path in many {
        var members := if fields[field].ManyField? then fields[field].members else [];
        HashesOfTreeAdd(members, childObject.value);
        assert forall m :: m in members ==> m in MembersOf(fields[field]);
        Put(field, ManyField(TreeAddObject(members, childObject.value)), now, objects);
      } else {
        Put(field, OneField(childObject.value), now, objects);
      }
    }
  }

  /** The state with an object of the key, new when there was none. */
  function Present(r: RowObject, k: string, key: Value, st: State, isRoot: bool): State {
    State(st.cache[k := if k in st.cache then st.cache[k] else map[r.key.name := Scalar(key)]],
          if isRoot && k !in st.cache then st.roots + [k] else st.roots)
  }

  lemma PresentThenFilled(r: RowObject, k: string, row: ResultRow, st: State, isRoot: bool)
    ensures var p := Present(r, k, Get(row, r.key.columnLabel), st, isRoot);
            p.(cache := p.cache[k := Fill(p.cache[k], r.values, row)]) == Opened(r, k, row, st, isRoot)
  {
  }

  /** The first of the remaining children, then the others. */
  lemma ChildParsed(
      k: string, children: seq<RowObject>, i: nat, row: ResultRow, st: State, many: set<string>)
    requires i < |children| && k in ParseTree(children[i], row, st, false, many).cache
    ensures var st1 := ParseTree(children[i], row, st, false, many);
            var linked := Link(st1.cache[k], children[i], KeyOf(children[i], row), many);
            ParseChildren(k, children[i..], row, st, many) ==
              ParseChildren(k, children[i + 1..], row, st1.(cache := st1.cache[k := linked]), many)
  {
    assert children[i..][1..] == children[i + 1..];
  }

  class RDBMSSimpleLoader {
    var objectCache: map<string, ResultObject>
    var resultTreeList: seq<ResultObject>

    /** The cached objects. */
    ghost var objects: set<ResultObject>

    constructor ()
      ensures Shows(State(map[], [])) && objects == {}
    {
      objectCache, resultTreeList, objects := map[], [], {};
    }

    /**
     The cache holds exactly the objects of the state, each under its own hash: different keys are different
     objects, and every reference leads into the cache.
     */
    ghost predicate Shows(st: State)
      reads this, objects
    {
      (forall o :: o in objects ==> o.hash in objectCache && objectCache[o.hash] == o) &&
      (forall k :: k in objectCache ==> objectCache[k] in objects && objectCache[k].hash == k) &&
      objectCache.Keys == st.cache.Keys && Hashes(resultTreeList) == st.roots &&
      (forall o :: o in resultTreeList ==> o in objects) &&
      forall o :: o in objects ==> o.Is(st.cache[o.hash], objects)
    }

    /** Objects stay in the cache; those that join it are new. */
    twostate predicate CacheGrew()
      reads this
    {
      old(objects) <= objects && fresh(objects - old(objects))
    }

    /** The object of the key: cached, or new, cached and, at the root, listed. */
    method Open(r: RowObject, key: Value, cacheKey: string, isRoot: bool, ghost st: State)
      returns (target: ResultObject)
      requires Shows(st)
      modifies this
      ensures Shows(Present(r, cacheKey, key, st, isRoot)) && CacheGrew()
      ensures target in objects && target.hash == cacheKey
    {
      if cacheKey in objectCache {
        return objectCache[cacheKey];
      }
      target := new ResultObject(cacheKey);
      target.Put(r.key.name, ScalarField(key), map[], objects);
      Enter(target, isRoot, map[r.key.name := Scalar(key)], st);
    }

    method Enter(target: ResultObject, isRoot: bool, ghost x: Object, ghost st: State)
      requires Shows(st) && target.hash !in objectCache && target.Is(x, objects)
      modifies this
      ensures objects == old(objects) + {target}
      ensures Shows(State(st.cache[target.hash := x], if isRoot then st.roots + [target.hash] else st.roots))
    {
      objectCache := objectCache[target.hash := target];
      objects := objects + {target};
      if isRoot {
        resultTreeList := resultTreeList + [target];
      }
    }

    method FillAt(target: ResultObject, r: RowObject, row: ResultRow, ghost st: State)
      requires Shows(st) && target in objects
      modifies target
      ensures Shows(st.(cache := st.cache[target.hash := Fill(st.cache[target.hash], r.values, row)]))
    {
      target.FillValues(r.values, row, st.cache[target.hash], objects);
    }

    method LinkAt(
        target: ResultObject, child: RowObject, childObject: Option<ResultObject>, many: set<string>, ghost st: State)
      requires Shows(st) && target in objects && (childObject.Some? ==> childObject.value in objects)
      modifies target
      ensures var key := if childObject.Some? then Some(childObject.value.hash) else None;
              Shows(st.(cache := st.cache[target.hash := Link(st.cache[target.hash], child, key, many)]))
    {
      target.LinkChild(child, childObject, many, st.cache[target.hash], objects);
    }

    /** One type of one row, with the types below it. The row has no such object when the primary key is NULL. */
    method ParseTabularTree(r: RowObject, row: ResultRow, isRoot: bool, many: set<string>, ghost st: State)
      returns (result: Option<ResultObject>)
      requires Shows(st)
      modifies this, objects
      ensures Shows(ParseTree(r, row, st, isRoot, many)) && CacheGrew()
      ensures result.Some? <==> KeyOf(r, row).Some?
      ensures result.Some? ==> result.value in objects && result.value.hash == KeyOf(r, row).value
      decreases r, 1
    {
      var key := Get(row, r.key.columnLabel);
      if key == Null {
        return None;
      }
      var cacheKey := CacheKey(r.path, r.key.name, key.text);
      var target := Open(r, key, cacheKey, isRoot, st);
      FillAt(target, r, row, Present(r, cacheKey, key, st, isRoot));
      PresentThenFilled(r, cacheKey, row, st, isRoot);
      ParseChildrenOf(target, r.children, row, many, Opened(r, cacheKey, row, st, isRoot));
      result := Some(target);
    }

    /** One type below, linked to its parent. */
    method ParseChild(target: ResultObject, child: RowObject, row: ResultRow, many: set<string>, ghost st: State)
      returns (ghost next: State)
      requires Shows(st) && target in objects
      modifies this, objects
      ensures target.hash in ParseTree(child, row, st, false, many).cache
      ensures var st1 := ParseTree(child, row, st, false, many);
              next == st1.(cache := st1.cache[target.hash :=
                                              Link(st1.cache[target.hash], child, KeyOf(child, row), many)])
      ensures Shows(next) && CacheGrew()
      decreases child, 2
    {
      var childObject := ParseTabularTree(child, row, false, many, st);
      ghost var st1 := ParseTree(child, row, st, false, many);
      LinkAt(target, child, childObject, many, st1);
      next := st1.(cache := st1.cache[target.hash := Link(st1.cache[target.hash], child, KeyOf(child, row), many)]);
    }

    /** The loop over the types below. */
    method ParseChildrenOf(
        target: ResultObject, children: seq<RowObject>, row: ResultRow, many: set<string>, ghost st: State)
      requires Shows(st) && target in objects
      modifies this, objects
      ensures Shows(ParseChildren(target.hash, children, row, st, many)) && CacheGrew()
      decreases children, 0
    {
      ghost var now := st;
      for i := 0 to |children|
        invariant Shows(now) && CacheGrew()
        invariant ParseChildren(target.hash, children[i..], row, now, many) ==
                    ParseChildren(target.hash, children, row, st, many)
      {
        ghost var next := ParseChild(target, children[i], row, many, now);
        ChildParsed(target.hash, children, i, row, now, many);
        now := next;
      }
      assert children[|children|..] == [];
    }

    /** All rows of the result set, one after the other. */
    method ResultSetToList(root: RowObject, rows: seq<ResultRow>, many: set<string>)
      requires Shows(State(map[], [])) && objects == {}
      modifies this
      ensures Shows(ParseRows(root, rows, many))
    {
      for i := 0 to |rows|
        invariant Shows(ParseRows(root, rows[..i], many)) && fresh(objects)
      {
        ghost var st := ParseRows(root, rows[..i], many);
        var ignored := ParseTabularTree(root, rows[i], true, many, st);
        assert rows[..i + 1][..i] == rows[..i];
      }
      assert rows[..|rows|] == rows;
    }
  }

  // ---------------------------------------------------------------- the returned objects, followed by reference

  function Under(fields: map<string, HeapField>, f: string): seq<ResultObject> {
    if f in fields then MembersOf(fields[f]) else []
  }

  /** An object with everything it refers to, as a tree. */
  ghost function Followed(objects: set<ResultObject>, r: RowObject, o: ResultObject): Tree
    requires o in objects && forall p :: p in objects ==> RefersIn(objects, p.fields)
    reads objects
    decreases r
  {
    assert RefersIn(objects, o.fields);
    Tree(map f | f in o.fields && o.fields[f].ScalarField? :: o.fields[f].v,
         set c, m | c in r.children && m in Under(o.fields, c.parentField) ::
           (c.parentField, Followed(objects, c, m)))
  }

  lemma UnderIsLinked(fields: map<string, HeapField>, x: Object, f: string)
    requires Represents(fields, x)
    ensures forall m :: m in Under(fields, f) ==> m.hash in Linked(x, f)
    ensures forall k :: k in Linked(x, f) ==> exists m :: m in Under(fields, f) && m.hash == k
  {
    if f in fields && fields[f].ManyField? {
      var members := fields[f].members;
      forall m | m in members
        ensures m.hash in Linked(x, f)
      {
        var i :| 0 <= i < |members| && members[i] == m;
        assert Hashes(members)[i] in Elements(Hashes(members));
      }
      forall k | k in Linked(x, f)
        ensures exists m :: m in Under(fields, f) && m.hash == k
      {
        var i :| 0 <= i < |members| && Hashes(members)[i] == k;
        assert members[i] in Under(fields, f);
      }
    } else if f in fields && fields[f].OneField? {
      assert fields[f].member in Under(fields, f);
    }
  }

  /** Following references in the heap is reading keys off the state. */
  lemma {:induction false} FollowedIsReified(loader: RDBMSSimpleLoader, st: State, r: RowObject, o: ResultObject)
    requires loader.Shows(st) && o in loader.objects
    ensures Followed(loader.objects, r, o) == Reify(st.cache, r, o.hash)
    decreases r
  {
    var x := st.cache[o.hash];
    var heap, read := Followed(loader.objects, r, o), Reify(st.cache, r, o.hash);
    assert o.Is(x, loader.objects);
    assert heap.scalars == read.scalars;
    forall c, m | c in r.children && m in Under(o.fields, c.parentField)
      ensures Followed(loader.objects, c, m) == Reify(st.cache, c, m.hash)
    {
      assert m in loader.objects;
      FollowedIsReified(loader, st, c, m);
    }
    forall kid | kid in heap.kids
      ensures kid in read.kids
    {
      var c, m :| c in r.children && m in Under(o.fields, c.parentField) &&
                  kid == (c.parentField, Followed(loader.objects, c, m));
      UnderIsLinked(o.fields, x, c.parentField);
    }
    forall kid | kid in read.kids
      ensures kid in heap.kids
    {
      var c, k :| c in r.children && k in Linked(x, c.parentField) && kid == (c.parentField, Reify(st.cache, c, k));
      UnderIsLinked(o.fields, x, c.parentField);
      var m :| m in Under(o.fields, c.parentField) && m.hash == k;
    }
  }
}
