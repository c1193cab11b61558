/** From a selection over the schema to the columns it needs: selected scalars, join columns and the primary key. */
module Projections {
  import opened Truth
  import opened Names
  import opened Seqs
  import opened Filters
  import opened Query
  import opened ColumnLaws
  import opened Schema
  import opened FilterReader

  // ---------------------------------------------------------------- selections

  /** A selected field with its alias, its filter argument and what is selected below it. */
  datatype Selection = Selection(
    name: string, alias: Option<string>, filter: Option<SetInput>, selections: seq<Selection>)

  predicate IsId(d: FieldDefinition) {
    d.kind == Scalar("ID") && d.nonNull
  }

  // ---------------------------------------------------------------- the projection of one type

  datatype Projection = Projection(field: string, alias: Option<string>, dataType: Option<string>)

  function TypeNameOf(t: ObjectType, name: string): Option<string> {
    match Definition(t, name)
    case Some(d) => if d.kind.Scalar? then Some(d.kind.typeName) else None
    case None => None
  }

  /** A selected field is a scalar or a relationship. */
  predicate Selectable(t: ObjectType, s: Selection) {
    Definition(t, s.name).Some? && !Definition(t, s.name).value.kind.OtherKind?
  }

  /** A scalar projects itself, a relationship the parent's side of its join. */
  function ProjectionOf(t: ObjectType, s: Selection): Projection
    requires Selectable(t, s)
  {
    match Definition(t, s.name).value.kind
    case Scalar(typeName) => Projection(s.name, s.alias, Some(typeName))
    case Relationship(_, parentField, _, _, _) => Projection(parentField, None, TypeNameOf(t, parentField))
  }

  /** The selected primary key: the last one, when there are several. */
  function SelectedId(t: ObjectType, ss: seq<Selection>): Option<string> {
    if ss == [] then None
    else
      var last := ss[|ss| - 1];
      var d := Definition(t, last.name);
      if d.Some? && IsId(d.value) then Some(last.name) else SelectedId(t, ss[..|ss| - 1])
  }

  function DefinedId(fields: seq<FieldDefinition>): Option<string> {
    if fields == [] then None
    else if IsId(fields[|fields| - 1]) then Some(fields[|fields| - 1].name) else DefinedId(fields[..|fields| - 1])
  }

  function IdOf(t: ObjectType, ss: seq<Selection>): Option<string> {
    if SelectedId(t, ss).Some? then SelectedId(t, ss) else DefinedId(t.fields)
  }

  function IdProjections(fields: seq<FieldDefinition>): set<Projection> {
    set d | d in fields && IsId(d) :: Projection(d.name, None, Some("ID"))
  }

  function ProjectionsOf(t: ObjectType, ss: seq<Selection>): set<Projection>
    requires forall s :: s in ss ==> Selectable(t, s)
  {
    (set s | s in ss :: ProjectionOf(t, s)) + if SelectedId(t, ss).Some? then {} else IdProjections(t.fields)
  }

  class ProjectionSet {
    var projections: set<Projection>
    var idField: Option<string>

    constructor ()
      ensures projections == {} && idField == None
    {
      projections, idField := {}, None;
    }

    method AddProjection(p: Projection)
      modifies this`projections
      ensures projections == old(projections) + {p}
    {
      if p !in projections {
        projections := projections + {p};
      }
    }

    /** The primary keys of the type are added when none is selected. */
    method AddPrimaryKeys(t: ObjectType)
      modifies this
      ensures projections == old(projections) + IdProjections(t.fields)
      ensures idField == if DefinedId(t.fields).Some? then DefinedId(t.fields) else old(idField)
    {
      for i := 0 to |t.fields|
        invariant projections == old(projections) + IdProjections(t.fields[..i])
        invariant idField == if DefinedId(t.fields[..i]).Some? then DefinedId(t.fields[..i]) else old(idField)
      {
        var d := t.fields[i];
        assert t.fields[..i + 1][..i] == t.fields[..i] && t.fields[..i + 1] == t.fields[..i] + [d];
        if IsId(d) {
          AddProjection(Projection(d.name, None, Some("ID")));
          idField := Some(d.name);
        }
      }
      assert t.fields[..|t.fields|] == t.fields;
    }
  }

  /** The selected attributes, the columns joins need, and the primary key. */
  method BuildAttributeProjection(t: ObjectType, selections: seq<Selection>) returns (r: Option<ProjectionSet>)
    ensures r.Some? <==> forall s :: s in selections ==> Selectable(t, s)
    ensures r.Some? ==> fresh(r.value)
    ensures r.Some? ==> r.value.projections == ProjectionsOf(t, selections) && r.value.idField == IdOf(t, selections)
  {
    var projectionSet := new ProjectionSet();
    var hasId := false;
    for i := 0 to |selections|
      invariant fresh(projectionSet) && (forall s :: s in selections[..i] ==> Selectable(t, s))
      invariant projectionSet.projections == set s | s in selections[..i] :: ProjectionOf(t, s)
      invariant projectionSet.idField == SelectedId(t, selections[..i]) && hasId == projectionSet.idField.Some?
    {
      var s := selections[i];
      assert selections[..i + 1][..i] == selections[..i] && selections[..i + 1] == selections[..i] + [s];
      if !Selectable(t, s) {
        assert s in selections;
        return None;
      }
      var d := Definition(t, s.name).value;
      projectionSet.AddProjection(ProjectionOf(t, s));
      if IsId(d) {
        hasId := true;
        projectionSet.idField := Some(s.name);
      }
    }
    assert selections[..|selections|] == selections;
    if !hasId {
      projectionSet.AddPrimaryKeys(t);
    }
    r := Some(projectionSet);
  }

  // ---------------------------------------------------------------- the selected tree

  /** The key the compiler uses: the primary key of the projection, or "id", which it then projects itself. */
  function KeyName(t: ObjectType, ss: seq<Selection>): string {
    match IdOf(t, ss) case Some(name) => name case None => DEFAULT_ID
  }

  predicate IsColumn(t: ObjectType, ss: seq<Selection>, f: string)
    requires forall s :: s in ss ==> Selectable(t, s)
  {
    (exists p :: p in ProjectionsOf(t, ss) && p.field == f) || (IdOf(t, ss).None? && f == DEFAULT_ID)
  }

  predicate IsRelationship(t: ObjectType, name: string) {
    Definition(t, name).Some? && Definition(t, name).value.kind.Relationship?
  }

  /** The selected relationships, in the order of the selection. */
  function Relationships(t: ObjectType, ss: seq<Selection>): seq<Selection> {
    Keep(ss, (s: Selection) => IsRelationship(t, s.name))
  }

  /** The tree of a filter argument that is given. */
  function FilterOfArgument(schema: map<string, ObjectType>, t: ObjectType, argument: Option<SetInput>)
    : Option<FilterSet>
  {
    if argument.None? then None else Accepted(schema, t, argument.value)
  }

  predicate ArgumentReads(schema: map<string, ObjectType>, t: ObjectType, argument: Option<SetInput>) {
    argument.Some? ==> Accepted(schema, t, argument.value).Some?
  }

  /** Every field is a scalar or a relationship to a known type, every filter is accepted, at every depth. */
  predicate SelectionReads(schema: map<string, ObjectType>, t: ObjectType, ss: seq<Selection>)
    decreases ss
  {
    forall s :: s in ss ==> Selectable(t, s) && (IsRelationship(t, s.name) ==> RelationshipReads(schema, t, s))
  }

  predicate RelationshipReads(schema: map<string, ObjectType>, t: ObjectType, s: Selection)
    requires IsRelationship(t, s.name)
    decreases s
  {
    Target(schema, t, s.name).Some? &&
    ArgumentReads(schema, Target(schema, t, s.name).value, s.filter) &&
    SelectionReads(schema, Target(schema, t, s.name).value, s.selections)
  }

  /**
   The node stands for a selection on a type: it has exactly the projected columns, and one edge per selected
   relationship, in the order of the selection.
   */
  ghost predicate Stands(schema: map<string, ObjectType>, t: ObjectType, ss: seq<Selection>, n: Node)
    decreases n
  {
    (forall s :: s in ss ==> Selectable(t, s)) && n.table == t.name && n.key == KeyName(t, ss) &&
    (forall f :: f in n.columns <==> IsColumn(t, ss, f)) &&
    AreEdges(schema, t, Relationships(t, ss), n.edges)
  }

  ghost predicate AreEdges(schema: map<string, ObjectType>, t: ObjectType, rs: seq<Selection>, edges: seq<Edge>)
    decreases edges
  {
    |rs| == |edges| && forall i :: 0 <= i < |rs| ==> IsEdge(schema, t, rs[i], edges[i])
  }

  ghost predicate IsEdge(schema: map<string, ObjectType>, t: ObjectType, s: Selection, e: Edge)
    decreases e
  {
    IsRelationship(t, s.name) && Target(schema, t, s.name).Some? &&
    var kind, to := Definition(t, s.name).value.kind, Target(schema, t, s.name).value;
    e.field == s.name && e.parentColumn == kind.parentField && e.childColumn == kind.childField &&
    e.hasMany == kind.hasMany && e.bridge == kind.bridge &&
    ArgumentReads(schema, to, s.filter) && e.node.filter == FilterOfArgument(schema, to, s.filter) &&
    Stands(schema, to, s.selections, e.node)
  }

  /** The selection an edge stands for. */
  lemma EdgeStands(schema: map<string, ObjectType>, t: ObjectType, ss: seq<Selection>, n: Node, e: Edge)
    returns (s: Selection)
    requires Stands(schema, t, ss, n) && e in n.edges
    ensures s in ss && IsEdge(schema, t, s, e)
  {
    var i :| 0 <= i < |n.edges| && n.edges[i] == e;
    s := Relationships(t, ss)[i];
    assert s in Relationships(t, ss);
  }

  /** Key and join columns are projected at every type. */
  predicate KeysProjected(n: Node) {
    n.key in n.columns && forall e :: e in n.edges ==> e.parentColumn in n.columns && KeysProjected(e.node)
  }

  lemma {:induction false} SelectedIdIsProjected(t: ObjectType, ss: seq<Selection>)
    requires (forall s :: s in ss ==> Selectable(t, s)) && SelectedId(t, ss).Some?
    ensures exists s :: s in ss && ProjectionOf(t, s).field == SelectedId(t, ss).value
    decreases ss
  {
    var init, last := ss[..|ss| - 1], ss[|ss| - 1];
    assert last in ss && forall s :: s in init ==> s in ss;
    if !IsId(Definition(t, last.name).value) {
      SelectedIdIsProjected(t, init);
    }
  }

  lemma {:induction false} DefinedIdIsProjected(fields: seq<FieldDefinition>)
    requires DefinedId(fields).Some?
    ensures exists d :: d in fields && IsId(d) && d.name == DefinedId(fields).value
    decreases fields
  {
    var init, last := fields[..|fields| - 1], fields[|fields| - 1];
    assert last in fields && forall d :: d in init ==> d in fields;
    if !IsId(last) {
      DefinedIdIsProjected(init);
    }
  }

  lemma KeyIsColumn(t: ObjectType, ss: seq<Selection>)
    requires forall s :: s in ss ==> Selectable(t, s)
    ensures IsColumn(t, ss, KeyName(t, ss))
  {
    if SelectedId(t, ss).Some? {
      SelectedIdIsProjected(t, ss);
      var s :| s in ss && ProjectionOf(t, s).field == SelectedId(t, ss).value;
      assert ProjectionOf(t, s) in ProjectionsOf(t, ss);
    } else if DefinedId(t.fields).Some? {
      DefinedIdIsProjected(t.fields);
      var d :| d in t.fields && IsId(d) && d.name == DefinedId(t.fields).value;
      assert Projection(d.name, None, Some("ID")) in ProjectionsOf(t, ss);
    }
  }

  /** The projection guarantees the columns the loader and the joins read. */
  lemma {:induction false} ProjectionHasKeys(
      schema: map<string, ObjectType>, t: ObjectType, ss: seq<Selection>, n: Node)
    requires Stands(schema, t, ss, n)
    ensures KeysProjected(n)
    decreases n
  {
    KeyIsColumn(t, ss);
    forall e | e in n.edges
      ensures e.parentColumn in n.columns && KeysProjected(e.node)
    {
      var s := EdgeStands(schema, t, ss, n, e);
      assert ProjectionOf(t, s) in ProjectionsOf(t, ss);
      ProjectionHasKeys(schema, Target(schema, t, s.name).value, s.selections, e.node);
    }
  }

  // ---------------------------------------------------------------- the node, read off schema and selection

  predicate IsKeyField(d: FieldDefinition) {
    d.kind == Scalar("ID") && d.nonNull
  }

  predicate DefinesKey(t: ObjectType, name: string) {
    Definition(t, name).Some? && IsKeyField(Definition(t, name).value)
  }

  predicate SelectsKey(t: ObjectType, ss: seq<Selection>) {
    exists s :: s in ss && DefinesKey(t, s.name)
  }

  /** A field that is selected and defined as a scalar. */
  predicate SelectsScalar(t: ObjectType, ss: seq<Selection>, f: string) {
    IsScalar(t, f) && exists s :: s in ss && s.name == f
  }

  /** The column a selected relationship starts from. */
  predicate SelectsJoin(t: ObjectType, ss: seq<Selection>, f: string) {
    exists s :: s in ss && Definition(t, s.name).Some? && Definition(t, s.name).value.kind.Relationship? &&
                Definition(t, s.name).value.kind.parentField == f
  }

  /** A key field of the type when none is selected, or "id" when there is none. */
  predicate AddsKey(t: ObjectType, ss: seq<Selection>, f: string) {
    !SelectsKey(t, ss) &&
    ((exists d :: d in t.fields && IsKeyField(d) && d.name == f) ||
     ((forall d :: d in t.fields ==> !IsKeyField(d)) && f == DEFAULT_ID))
  }

  /** The last selected key field; the last one defined when none is selected; "id" when there is none. */
  predicate IsKeyOf(t: ObjectType, ss: seq<Selection>, key: string) {
    if SelectsKey(t, ss) then
      exists i :: 0 <= i < |ss| && DefinesKey(t, ss[i].name) && ss[i].name == key &&
                  forall k :: i < k < |ss| ==> !DefinesKey(t, ss[k].name)
    else if exists d :: d in t.fields && IsKeyField(d) then
      exists i :: 0 <= i < |t.fields| && IsKeyField(t.fields[i]) && t.fields[i].name == key &&
                  forall k :: i < k < |t.fields| ==> !IsKeyField(t.fields[k])
    else key == DEFAULT_ID
  }

  /**
   At every depth the node has the selected scalars, the columns of its joins and its key, no other column, and one
   edge for every selected relationship, with the columns, the flag and the bridge of its definition.
   */
  ghost predicate Reflects(schema: map<string, ObjectType>, t: ObjectType, ss: seq<Selection>, n: Node)
    decreases n
  {
    n.table == t.name && IsKeyOf(t, ss, n.key) &&
    (forall f :: f in n.columns <==> SelectsScalar(t, ss, f) || SelectsJoin(t, ss, f) || AddsKey(t, ss, f)) &&
    (forall s :: s in ss && Definition(t, s.name).Some? && Definition(t, s.name).value.kind.Relationship? ==>
       exists e :: e in n.edges && ReflectsEdge(schema, t, s, e)) &&
    forall e :: e in n.edges ==> exists s :: s in ss && ReflectsEdge(schema, t, s, e)
  }

  ghost predicate ReflectsEdge(schema: map<string, ObjectType>, t: ObjectType, s: Selection, e: Edge)
    decreases e
  {
    Definition(t, s.name).Some? && Definition(t, s.name).value.kind.Relationship? &&
    var kind := Definition(t, s.name).value.kind;
    e.field == s.name && e.parentColumn == kind.parentField && e.childColumn == kind.childField &&
    e.hasMany == kind.hasMany && e.bridge == kind.bridge &&
    kind.to in schema && Reflects(schema, schema[kind.to], s.selections, e.node)
  }

  lemma {:induction false} SelectedIdIsLast(t: ObjectType, ss: seq<Selection>)
    ensures SelectedId(t, ss).Some? <==> SelectsKey(t, ss)
    ensures SelectedId(t, ss).Some? ==>
              exists i :: 0 <= i < |ss| && DefinesKey(t, ss[i].name) && ss[i].name == SelectedId(t, ss).value &&
                          forall k :: i < k < |ss| ==> !DefinesKey(t, ss[k].name)
    decreases ss
  {
    if ss != [] {
      var init, last := ss[..|ss| - 1], ss[|ss| - 1];
      SelectedIdIsLast(t, init);
      assert last in ss && forall s :: s in ss <==> s in init || s == last;
      assert forall k :: 0 <= k < |init| ==> init[k] == ss[k];
      if DefinesKey(t, last.name) {
        assert DefinesKey(t, ss[|ss| - 1].name);
      }
    }
  }

  lemma {:induction false} DefinedIdIsLast(fields: seq<FieldDefinition>)
    ensures DefinedId(fields).Some? <==> exists d :: d in fields && IsKeyField(d)
    ensures DefinedId(fields).Some? ==>
              exists i :: 0 <= i < |fields| && IsKeyField(fields[i]) && fields[i].name == DefinedId(fields).value &&
                          forall k :: i < k < |fields| ==> !IsKeyField(fields[k])
    decreases fields
  {
    if fields != [] {
      var init, last := fields[..|fields| - 1], fields[|fields| - 1];
      DefinedIdIsLast(init);
      assert last in fields && forall d :: d in fields <==> d in init || d == last;
      assert forall k :: 0 <= k < |init| ==> init[k] == fields[k];
      if IsKeyField(last) {
        assert IsKeyField(fields[|fields| - 1]);
      }
    }
  }

  lemma ColumnIsNeeded(t: ObjectType, ss: seq<Selection>, f: string)
    requires forall s :: s in ss ==> Selectable(t, s)
    ensures IsColumn(t, ss, f) <==> SelectsScalar(t, ss, f) || SelectsJoin(t, ss, f) || AddsKey(t, ss, f)
  {
    SelectedIdIsLast(t, ss);
    DefinedIdIsLast(t.fields);
    if IsColumn(t, ss, f) {
      NeededForColumn(t, ss, f);
    }
    if SelectsScalar(t, ss, f) {
      var s :| s in ss && s.name == f;
      assert ProjectionOf(t, s) in ProjectionsOf(t, ss);
    }
    if SelectsJoin(t, ss, f) {
      var s :| s in ss && Definition(t, s.name).Some? && Definition(t, s.name).value.kind.Relationship? &&
               Definition(t, s.name).value.kind.parentField == f;
      assert ProjectionOf(t, s) in ProjectionsOf(t, ss);
    }
    if AddsKey(t, ss, f) {
      if d :| d in t.fields && IsKeyField(d) && d.name == f {
        assert Projection(d.name, None, Some("ID")) in ProjectionsOf(t, ss);
      }
    }
  }

  lemma NeededForColumn(t: ObjectType, ss: seq<Selection>, f: string)
    requires (forall s :: s in ss ==> Selectable(t, s)) && IsColumn(t, ss, f)
    requires SelectedId(t, ss).Some? <==> SelectsKey(t, ss)
    requires DefinedId(t.fields).Some? <==> exists d :: d in t.fields && IsKeyField(d)
    ensures SelectsScalar(t, ss, f) || SelectsJoin(t, ss, f) || AddsKey(t, ss, f)
  {
    if p :| p in ProjectionsOf(t, ss) && p.field == f {
      if s :| s in ss && p == ProjectionOf(t, s) {
      } else {
        var d :| d in t.fields && IsId(d) && p == Projection(d.name, None, Some("ID"));
      }
    }
  }

  lemma KeyIsChosen(t: ObjectType, ss: seq<Selection>)
    ensures IsKeyOf(t, ss, KeyName(t, ss))
  {
    SelectedIdIsLast(t, ss);
    DefinedIdIsLast(t.fields);
  }

  /** Both ways between the selected relationships and the edges. */
  ghost predicate EdgesReflect(schema: map<string, ObjectType>, t: ObjectType, ss: seq<Selection>, edges: seq<Edge>) {
    (forall s :: s in ss && Definition(t, s.name).Some? && Definition(t, s.name).value.kind.Relationship? ==>
       exists e :: e in edges && ReflectsEdge(schema, t, s, e)) &&
    forall e :: e in edges ==> exists s :: s in ss && ReflectsEdge(schema, t, s, e)
  }

  lemma PairedEdgesReflect(
      schema: map<string, ObjectType>, t: ObjectType, ss: seq<Selection>, rs: seq<Selection>, edges: seq<Edge>)
    requires rs == Relationships(t, ss) && |rs| == |edges|
    requires forall i :: 0 <= i < |rs| ==> ReflectsEdge(schema, t, rs[i], edges[i])
    ensures EdgesReflect(schema, t, ss, edges)
  {
    forall s | s in ss && Definition(t, s.name).Some? && Definition(t, s.name).value.kind.Relationship?
      ensures exists e :: e in edges && ReflectsEdge(schema, t, s, e)
    {
      assert s in rs;
      var i :| 0 <= i < |rs| && rs[i] == s;
      assert edges[i] in edges;
    }
    forall e | e in edges
      ensures exists s :: s in ss && ReflectsEdge(schema, t, s, e)
    {
      var i :| 0 <= i < |edges| && edges[i] == e;
      assert rs[i] in rs;
    }
  }

  /** A node that stands for a selection is the one schema and selection describe, at every depth. */
  lemma {:induction false} StandsReflects(schema: map<string, ObjectType>, t: ObjectType, ss: seq<Selection>, n: Node)
    requires Stands(schema, t, ss, n)
    ensures Reflects(schema, t, ss, n)
    decreases n
  {
    KeyIsChosen(t, ss);
    forall f
      ensures IsColumn(t, ss, f) <==> SelectsScalar(t, ss, f) || SelectsJoin(t, ss, f) || AddsKey(t, ss, f)
    {
      ColumnIsNeeded(t, ss, f);
    }
    var rs := Relationships(t, ss);
    forall i | 0 <= i < |rs|
      ensures ReflectsEdge(schema, t, rs[i], n.edges[i])
    {
      EdgeReflects(schema, t, rs[i], n.edges[i]);
    }
    PairedEdgesReflect(schema, t, ss, rs, n.edges);
  }

  lemma {:induction false} EdgeReflects(schema: map<string, ObjectType>, t: ObjectType, s: Selection, e: Edge)
    requires IsEdge(schema, t, s, e)
    ensures ReflectsEdge(schema, t, s, e)
    decreases e
  {
    StandsReflects(schema, Target(schema, t, s.name).value, s.selections, e.node);
  }

  // ---------------------------------------------------------------- from selection to node

  /** The projected columns, in any order. */
  method ColumnsFrom(projections: set<Projection>, idField: Option<string>) returns (columns: seq<string>)
    ensures forall f :: f in columns <==>
              (exists p :: p in projections && p.field == f) || (idField.None? && f == DEFAULT_ID)
  {
    var left := projections;
    columns := if idField.None? then [DEFAULT_ID] else [];
    while left != {}
      invariant left <= projections
      invariant forall f :: f in columns <==>
                  (exists p :: p in projections && p !in left && p.field == f) || (idField.None? && f == DEFAULT_ID)
      decreases |left|
    {
      var p :| p in left;
      left, columns := left - {p}, columns + [p.field];
    }
  }

  /** The filter argument of a field. */
  method BuildFilter(schema: map<string, ObjectType>, t: ObjectType, argument: Option<SetInput>)
    returns (ok: bool, r: Option<FilterSet>)
    ensures ok <==> ArgumentReads(schema, t, argument)
    ensures ok ==> r == FilterOfArgument(schema, t, argument)
  {
    ok, r := true, None;
    if argument.Some? {
      r := ParseQueryFilter(schema, t, argument.value);
      ok := r.Some?;
    }
  }

  /** A selected type: its projection, its filter, and the relationships selected below it, one by one. */
  method BuildNode(schema: map<string, ObjectType>, t: ObjectType, ss: seq<Selection>, argument: Option<SetInput>)
    returns (r: Option<Node>)
    ensures r.Some? <==> SelectionReads(schema, t, ss) && ArgumentReads(schema, t, argument)
    ensures r.Some? ==> Stands(schema, t, ss, r.value) && r.value.filter == FilterOfArgument(schema, t, argument)
    ensures r.Some? ==> Reflects(schema, t, ss, r.value)
    decreases ss, 1
  {
    var projectionSet := BuildAttributeProjection(t, ss);
    var ok, filter := BuildFilter(schema, t, argument);
    if projectionSet.None? || !ok {
      return None;
    }
    var columns := ColumnsFrom(projectionSet.value.projections, projectionSet.value.idField);
    var key := if projectionSet.value.idField.Some? then projectionSet.value.idField.value else DEFAULT_ID;
    var edges;
    ok, edges := BuildEdges(schema, t, ss);
    if ok {
      r := Some(Node(t.name, key, columns, filter, edges));
      StandsReflects(schema, t, ss, r.value);
    } else {
      r := None;
    }
  }

  predicate RelationshipsRead(schema: map<string, ObjectType>, t: ObjectType, ss: seq<Selection>) {
    forall s :: s in ss && IsRelationship(t, s.name) ==> RelationshipReads(schema, t, s)
  }

  /** The selected relationships, one by one. */
  method BuildEdges(schema: map<string, ObjectType>, t: ObjectType, ss: seq<Selection>)
    returns (ok: bool, edges: seq<Edge>)
    ensures ok <==> RelationshipsRead(schema, t, ss)
    ensures ok ==> AreEdges(schema, t, Relationships(t, ss), edges)
    decreases ss, 0
  {
    edges := [];
    for i := 0 to |ss|
      invariant RelationshipsRead(schema, t, ss[..i]) && AreEdges(schema, t, Relationships(t, ss[..i]), edges)
    {
      assert ss[..i + 1] == ss[..i] + [ss[i]];
      KeepSnoc(ss[..i], ss[i], (s: Selection) => IsRelationship(t, s.name));
      if IsRelationship(t, ss[i].name) {
        var e := BuildEdge(schema, t, ss[i]);
        if e.None? {
          assert ss[i] in ss;
          return false, [];
        }
        edges := edges + [e.value];
      }
    }
    assert ss[..|ss|] == ss;
    ok := true;
  }

  /** A selected relationship and everything below it. */
  method BuildEdge(schema: map<string, ObjectType>, t: ObjectType, s: Selection) returns (r: Option<Edge>)
    requires IsRelationship(t, s.name)
    ensures r.Some? <==> RelationshipReads(schema, t, s)
    ensures r.Some? ==> IsEdge(schema, t, s, r.value)
    decreases s
  {
    var kind, to := Definition(t, s.name).value.kind, Target(schema, t, s.name);
    if to.None? {
      return None;
    }
    var n := BuildNode(schema, to.value, s.selections, s.filter);
    if n.None? {
      return None;
    }
    r := Some(Edge(s.name, kind.parentField, kind.childField, kind.hasMany, kind.bridge, n.value));
  }

  // ---------------------------------------------------------------- a relationship selected twice

  /** No relationship is selected twice, under whatever aliases, at any depth. */
  predicate SelectedOnce(schema: map<string, ObjectType>, t: ObjectType, ss: seq<Selection>)
    decreases ss
  {
    var rs := Relationships(t, ss);
    (forall i, k :: 0 <= i < k < |rs| ==> rs[i].name != rs[k].name) &&
    forall s :: s in ss && Target(schema, t, s.name).Some? ==>
      SelectedOnce(schema, Target(schema, t, s.name).value, s.selections)
  }

  /** Sibling fields of the node differ exactly when no relationship is selected twice. */
  lemma {:induction false} FieldsDifferIff(schema: map<string, ObjectType>, t: ObjectType, ss: seq<Selection>, n: Node)
    requires Stands(schema, t, ss, n)
    ensures FieldsDiffer(n.edges) <==> SelectedOnce(schema, t, ss)
    decreases n
  {
    var rs := Relationships(t, ss);
    forall i | 0 <= i < |rs|
      ensures n.edges[i].field == rs[i].name && rs[i] in ss && Target(schema, t, rs[i].name).Some?
      ensures FieldsDiffer(n.edges[i].node.edges) <==>
                SelectedOnce(schema, Target(schema, t, rs[i].name).value, rs[i].selections)
    {
      assert rs[i] in rs && IsEdge(schema, t, rs[i], n.edges[i]);
      FieldsDifferIff(schema, Target(schema, t, rs[i].name).value, rs[i].selections, n.edges[i].node);
    }
    if FieldsDiffer(n.edges) {
      forall s | s in ss && Target(schema, t, s.name).Some?
        ensures SelectedOnce(schema, Target(schema, t, s.name).value, s.selections)
      {
        assert s in rs;
        var i :| 0 <= i < |rs| && rs[i] == s;
        assert n.edges[i] in n.edges;
      }
    }
  }

  // ---------------------------------------------------------------- names

  /** Fields are names of their own, and joins start from scalar columns. */
  predicate GoodType(t: ObjectType) {
    (forall d :: d in t.fields ==> IsName(d.name) && Definition(t, d.name) == Some(d)) &&
    forall d :: d in t.fields && d.kind.Relationship? ==>
      IsName(d.kind.parentField) && d.name != DEFAULT_ID && !IsRelationship(t, d.kind.parentField)
  }

  predicate GoodSchema(schema: map<string, ObjectType>) {
    forall name :: name in schema ==> GoodType(schema[name])
  }

  lemma ColumnIsNamed(t: ObjectType, ss: seq<Selection>, f: string)
    requires GoodType(t) && (forall s :: s in ss ==> Selectable(t, s)) && IsColumn(t, ss, f)
    ensures IsName(f) && !IsRelationship(t, f)
  {
    if p :| p in ProjectionsOf(t, ss) && p.field == f {
      if p in IdProjections(t.fields) {
        var d :| d in t.fields && IsId(d) && p == Projection(d.name, None, Some("ID"));
      } else {
        var s :| s in ss && p == ProjectionOf(t, s);
        assert Definition(t, s.name).value in t.fields;
      }
    }
  }

  /** Over a good schema every selection is well named. */
  lemma {:induction false} SelectionIsWellNamed(
      schema: map<string, ObjectType>, t: ObjectType, ss: seq<Selection>, n: Node)
    requires GoodSchema(schema) && GoodType(t) && Stands(schema, t, ss, n)
    ensures WellNamed(n)
    decreases n
  {
    KeyIsColumn(t, ss);
    forall f | f in n.columns
      ensures IsName(f) && !IsRelationship(t, f)
    {
      ColumnIsNamed(t, ss, f);
    }
    forall e | e in n.edges
      ensures IsName(e.field) && e.field !in n.columns && WellNamed(e.node)
    {
      var s := EdgeStands(schema, t, ss, n, e);
      SelectionIsWellNamed(schema, Target(schema, t, s.name).value, s.selections, e.node);
    }
  }
}
