/**
 Batch mode: many queries for the children of one field are fused into one statement with an IN list, and its
 rows are split up again by parent key.
 */
module Batch {
  import opened Truth
  import opened Filters
  import opened FilterLaws
  import opened FilterParser
  import opened Seqs
  import opened Sql
  import opened Query
  import opened Ordering

  /** How a query's rows hang on its parent: the parent's key and the column that repeats it. */
  datatype JoinSpec = JoinSpec(parentId: Value, childColumn: string, bridge: Option<Bridge>)

  /** A query that is no aggregate; `hasId` says whether some projected column is of type ID. */
  datatype BatchQuery = BatchQuery(
    table: string, columns: seq<string>, hasId: bool, filter: Option<FilterSet>, sort: Option<string>, descending: bool,
    join: Option<JoinSpec>, skip: Option<nat>, limit: Option<nat>)

  function SortOf(q: BatchQuery): string {
    if q.sort.Some? then q.sort.value else DEFAULT_ID
  }

  function BridgeOf(q: BatchQuery): Option<(Bridge, string)> {
    if q.join.Some? && q.join.value.bridge.Some? then Some((q.join.value.bridge.value, q.join.value.childColumn))
    else None
  }

  /** Without a bridge a column "id" is added when no column is of type ID. */
  function ColumnsOf(q: BatchQuery): seq<string> {
    if q.hasId || BridgeOf(q).Some? then q.columns else q.columns + [DEFAULT_ID]
  }

  datatype InList = InList(column: string, ids: seq<Value>)

  /** `SELECT DISTINCT columns FROM [bridge INNER JOIN] table WHERE column IN (ids) AND filter ORDER BY sort` */
  datatype BatchText = BatchText(
    table: string, columns: seq<string>, bridge: Option<(Bridge, string)>, inList: Option<InList>,
    filter: Option<Condition>, sort: string, descending: bool, skip: Option<nat>, limit: Option<nat>)

  datatype ParsedBatch = ParsedBatch(text: BatchText) | BadBatch(error: Error)

  // ---------------------------------------------------------------- fusing

  function ParentIds(qs: seq<BatchQuery>): seq<Value> {
    if qs == [] then []
    else (if qs[0].join.Some? then [qs[0].join.value.parentId] else []) + ParentIds(qs[1..])
  }

  /** The column of the IN list comes from the first query that has a join. */
  function InColumn(qs: seq<BatchQuery>): Option<string> {
    if qs == [] then None
    else if qs[0].join.None? then InColumn(qs[1..])
    else
      var j := qs[0].join.value;
      Some(if j.bridge.Some? then j.bridge.value.parentKey else j.childColumn)
  }

  function TextOf(qs: seq<BatchQuery>): ParsedBatch
    requires qs != []
  {
    var q := qs[0];
    var filter := if q.filter.None? then NoCondition else Compile(q.filter.value, [q.table], None);
    if filter.Fails? then BadBatch(filter.error)
    else
      ParsedBatch(BatchText(
        q.table, ColumnsOf(q), BridgeOf(q),
        if InColumn(qs).None? then None else Some(InList(InColumn(qs).value, ParentIds(qs))),
        if filter.Emit? then Some(filter.condition) else None, SortOf(q), q.descending, q.skip, q.limit))
  }

  lemma {:induction false} ParentIdsSnoc(qs: seq<BatchQuery>, q: BatchQuery)
    ensures ParentIds(qs + [q]) == ParentIds(qs) + if q.join.Some? then [q.join.value.parentId] else []
    ensures InColumn(qs + [q]) == if InColumn(qs).Some? then InColumn(qs) else InColumn([q])
  {
    if qs != [] {
      assert (qs + [q])[1..] == qs[1..] + [q];
      ParentIdsSnoc(qs[1..], q);
    } else {
      assert [] + [q] == [q] && [q][1..] == [];
    }
  }

  /** The parent keys are collected one query at a time. */
  method AddJoinCondition(qs: seq<BatchQuery>) returns (r: Option<InList>)
    ensures r == if InColumn(qs).None? then None else Some(InList(InColumn(qs).value, ParentIds(qs)))
  {
    var ids, column := [], None;
    for i := 0 to |qs|
      invariant ids == ParentIds(qs[..i]) && column == InColumn(qs[..i])
    {
      var q := qs[i];
      if q.join.Some? {
        if column.None? {
          column := Some(if q.join.value.bridge.Some? then q.join.value.bridge.value.parentKey
                         else q.join.value.childColumn);
        }
        ids := ids + [q.join.value.parentId];
      }
      assert qs[..i + 1] == qs[..i] + [q];
      ParentIdsSnoc(qs[..i], q);
    }
    assert qs[..|qs|] == qs;
    r := if column.None? then None else Some(InList(column.value, ids));
  }

  method Parse(qs: seq<BatchQuery>) returns (r: ParsedBatch)
    requires qs != []
    ensures r == TextOf(qs)
  {
    var q := qs[0];
    var filter := NoCondition;
    if q.filter.Some? {
      filter := ParseFilterSet(q.filter.value, [q.table], None, null);
    }
    if filter.Fails? {
      return BadBatch(filter.error);
    }
    var bridge, columns, sort := None, q.columns, DEFAULT_ID;
    if q.sort.Some? {
      sort := q.sort.value;
    }
    if q.join.Some? && q.join.value.bridge.Some? {
      bridge := Some((q.join.value.bridge.value, q.join.value.childColumn));
    } else if !q.hasId {
      columns := columns + [DEFAULT_ID];
    }
    var inList := AddJoinCondition(qs);
    r := ParsedBatch(BatchText(q.table, columns, bridge, inList, if filter.Emit? then Some(filter.condition) else None,
                               sort, q.descending, q.skip, q.limit));
  }

  /** The parameters, by the second traversal of the filters of the first query. */
  function Args(qs: seq<BatchQuery>): seq<Operand>
    requires qs != []
  {
    if qs[0].filter.None? then [] else AsOperands(BoundAll(Flatten(qs[0].filter.value)))
  }

  // ---------------------------------------------------------------- executing

  function Restrict(row: Row, columns: seq<string>): Row {
    map f | f in columns :: Col(row, f)
  }

  predicate InListHolds(inList: Option<InList>, v: Value) {
    inList.Some? ==> AnyEqual(v, inList.value.ids) == Yes
  }

  predicate Bindable(t: BatchText, args: seq<Operand>) {
    |args| == FilterHoles(t.filter)
  }

  /** The statement names columns that exist and is ordered by a column it selects. */
  predicate LegalBatch(db: Database, t: BatchText) {
    t.sort in t.columns && (forall f :: f in t.columns ==> HasColumn(db, t.table, f)) &&
    (t.bridge.Some? ==>
       var (bridge, childColumn) := t.bridge.value;
       HasColumn(db, bridge.table, bridge.parentKey) && HasColumn(db, bridge.table, bridge.childKey) &&
       HasColumn(db, t.table, childColumn)) &&
    (t.inList.Some? ==>
       HasColumn(db, if t.bridge.Some? then t.bridge.value.0.table else t.table, t.inList.value.column)) &&
    (t.filter.Some? ==>
       forall c :: c in NamedIn(t.filter.value) ==> c.table == [t.table] && HasColumn(db, t.table, c.field))
  }

  /** A row of the table that meets the filter. */
  predicate Chosen(db: Database, t: BatchText, args: seq<Operand>, y: Row)
    requires Bindable(t, args)
  {
    y in RowsOf(db, t.table) && FilterHolds(db, t.filter, args, EnvOf(map[[t.table] := Some(y)]))
  }

  /** A result row; the bridge's parent key is selected beside the table's columns. */
  ghost predicate Produces(db: Database, t: BatchText, args: seq<Operand>, r: Row)
    requires Bindable(t, args)
  {
    if t.bridge.None? then
      exists y :: Chosen(db, t, args, y) && r == Restrict(y, t.columns) &&
                  (t.inList.Some? ==> InListHolds(t.inList, Col(y, t.inList.value.column)))
    else
      exists y, b :: Chosen(db, t, args, y) && ProducesBridged(db, t, y, b, r)
  }

  predicate ProducesBridged(db: Database, t: BatchText, y: Row, b: Row, r: Row)
    requires t.bridge.Some?
  {
    var (bridge, childColumn) := t.bridge.value;
    b in RowsOf(db, bridge.table) && Equal3(Col(b, bridge.childKey), Col(y, childColumn)) == Yes &&
    r == Restrict(y, t.columns)[bridge.parentKey := Col(b, bridge.parentKey)] &&
    (t.inList.Some? ==> InListHolds(t.inList, Col(b, t.inList.value.column)))
  }

  predicate Precedes(co: Collation, field: string, descending: bool, r: Row, r': Row) {
    if descending then Less(co, Col(r', field), Col(r, field)) else Less(co, Col(r, field), Col(r', field))
  }

  predicate SortedOn(co: Collation, field: string, descending: bool, rows: seq<Row>) {
    forall a, b :: 0 <= a < b < |rows| ==> !Precedes(co, field, descending, rows[b], rows[a])
  }

  ghost predicate AnswersAll(db: Database, t: BatchText, args: seq<Operand>, rows: seq<Row>)
    requires Bindable(t, args)
  {
    Distinct(rows) && (forall r :: r in rows <==> Produces(db, t, args, r)) &&
    SortedOn(db.collation, t.sort, t.descending, rows)
  }

  /** Any answer the database may give. */
  ghost predicate Answers(db: Database, t: BatchText, args: seq<Operand>, rows: seq<Row>)
    requires Bindable(t, args)
  {
    exists all :: AnswersAll(db, t, args, all) && rows == Slice(all, t.skip, t.limit)
  }

  // ---------------------------------------------------------------- what a query asks

  /** A row of the type that meets the filter and hangs on the parent, over a bridge if there is one. */
  ghost predicate IsAsked(db: Database, q: BatchQuery, y: Row) {
    y in RowsOf(db, q.table) && Selected(db.collation, q.filter, y) && Hangs(db, q, y)
  }

  ghost predicate Hangs(db: Database, q: BatchQuery, y: Row) {
    match q.join
    case None => true
    case Some(JoinSpec(id, childColumn, None)) => id.Val? && Col(y, childColumn) == id
    case Some(JoinSpec(id, childColumn, Some(bridge))) =>
      id.Val? && Col(y, childColumn).Val? &&
      exists b :: b in RowsOf(db, bridge.table) && Col(b, bridge.parentKey) == id &&
                  Col(b, bridge.childKey) == Col(y, childColumn)
  }

  /**
   The result row has the values of the row in the columns of the query, and in "id" when no column is of type ID; over
   a bridge it has the parent's key instead of the latter.
   */
  ghost predicate IsShown(q: BatchQuery, r: Row, y: Row) {
    match q.join
    case Some(JoinSpec(id, _, Some(bridge))) =>
      (forall f :: f in r <==> f in q.columns || f == bridge.parentKey) &&
      forall f :: f in r ==> r[f] == if f == bridge.parentKey then id else Col(y, f)
    case _ =>
      (forall f :: f in r <==> f in q.columns || (f == "id" && !q.hasId)) && forall f :: f in r ==> r[f] == Col(y, f)
  }

  /** Of two result rows the one that comes first by the sort field, or else by "id", in the direction of the query. */
  ghost predicate InQueryOrder(db: Database, q: BatchQuery, rows: seq<Row>) {
    var field := match q.sort case Some(f) => f case None => "id";
    forall a, b :: 0 <= a < b < |rows| ==>
      if q.descending then !Less(db.collation, Col(rows[a], field), Col(rows[b], field))
      else !Less(db.collation, Col(rows[b], field), Col(rows[a], field))
  }

  lemma OneText(q: BatchQuery)
    requires WellFormedSet(q.filter)
    ensures TextOf([q]).ParsedBatch? && Bindable(TextOf([q]).text, Args([q]))
    ensures var inList := TextOf([q]).text.inList;
            match q.join
            case None => inList == None
            case Some(j) => inList == Some(InList(KeyColumn(j), [j.parentId]))
  {
    assert [q][1..] == [] && InColumn([]) == None;
    assert ParentIds([q]) == if q.join.Some? then [q.join.value.parentId] else [];
    if q.filter.Some? {
      BindingMatchesCompiling(q.filter.value, [q.table]);
      CompileHoles(q.filter.value, [q.table], None);
    }
  }

  lemma ChosenIff(db: Database, q: BatchQuery, y: Row)
    requires WellFormedSet(q.filter)
    ensures TextOf([q]).ParsedBatch? && Bindable(TextOf([q]).text, Args([q]))
    ensures Chosen(db, TextOf([q]).text, Args([q]), y) <==>
              y in RowsOf(db, q.table) && Selected(db.collation, q.filter, y)
  {
    OneText(q);
    if q.filter.Some? {
      var s := q.filter.value;
      var env := EnvOf(map[[q.table] := Some(y)]);
      BindingMatchesCompiling(s, [q.table]);
      WithoutAliases(s, [q.table], db.collation, env, y);
    }
  }

  lemma RestrictShows(q: BatchQuery, r: Row, y: Row)
    ensures match q.join
            case Some(JoinSpec(id, _, Some(bridge))) =>
              IsShown(q, r, y) <==> r == Restrict(y, ColumnsOf(q))[bridge.parentKey := id]
            case _ => IsShown(q, r, y) <==> r == Restrict(y, ColumnsOf(q))
  {
    match q.join
    case Some(JoinSpec(id, _, Some(bridge))) =>
      if IsShown(q, r, y) {
        assert r == Restrict(y, ColumnsOf(q))[bridge.parentKey := id];
      }
    case _ =>
      if IsShown(q, r, y) {
        assert r == Restrict(y, ColumnsOf(q));
      }
  }

  /** What the compiled statement of one query produces is what the query asks for. */
  lemma ProducesIff(db: Database, q: BatchQuery, r: Row)
    requires WellFormedSet(q.filter)
    ensures TextOf([q]).ParsedBatch? && Bindable(TextOf([q]).text, Args([q]))
    ensures Produces(db, TextOf([q]).text, Args([q]), r) <==> exists y :: IsAsked(db, q, y) && IsShown(q, r, y)
  {
    OneText(q);
    var t, args := TextOf([q]).text, Args([q]);
    forall y
      ensures Chosen(db, t, args, y) <==> y in RowsOf(db, q.table) && Selected(db.collation, q.filter, y)
      ensures Yields(db, t, y, r) <==> Hangs(db, q, y) && IsShown(q, r, y)
    {
      ChosenIff(db, q, y);
      YieldsIff(db, q, y, r);
    }
    assert Produces(db, t, args, r) <==> exists y :: Chosen(db, t, args, y) && Yields(db, t, y, r);
  }

  lemma YieldsIff(db: Database, q: BatchQuery, y: Row, r: Row)
    requires WellFormedSet(q.filter)
    ensures TextOf([q]).ParsedBatch?
    ensures Yields(db, TextOf([q]).text, y, r) <==> Hangs(db, q, y) && IsShown(q, r, y)
  {
    OneText(q);
    var t := TextOf([q]).text;
    match q.join
    case None => RestrictShows(q, r, y);
    case Some(JoinSpec(id, childColumn, None)) =>
      RestrictShows(q, r, y);
      AnyEqualYes(Col(y, childColumn), [id]);
    case Some(JoinSpec(id, childColumn, Some(bridge))) =>
      forall b
        ensures ProducesBridged(db, t, y, b, r) <==>
                  b in RowsOf(db, bridge.table) && Col(b, bridge.childKey) == Col(y, childColumn) &&
                  Col(y, childColumn).Val? && Col(b, bridge.parentKey) == id && id.Val? && IsShown(q, r, y)
      {
        BridgedIff(db, q, y, b, r, id, childColumn, bridge);
      }
  }

  lemma BridgedIff(
      db: Database, q: BatchQuery, y: Row, b: Row, r: Row, id: Value, childColumn: string, bridge: Bridge)
    requires WellFormedSet(q.filter) && q.join == Some(JoinSpec(id, childColumn, Some(bridge)))
    ensures TextOf([q]).ParsedBatch? && TextOf([q]).text.bridge == Some((bridge, childColumn))
    ensures ProducesBridged(db, TextOf([q]).text, y, b, r) <==>
              b in RowsOf(db, bridge.table) && Col(b, bridge.childKey) == Col(y, childColumn) &&
              Col(y, childColumn).Val? && Col(b, bridge.parentKey) == id && id.Val? && IsShown(q, r, y)
  {
    OneText(q);
    RestrictShows(q, r, y);
    AnyEqualYes(Col(b, bridge.parentKey), [id]);
  }

  /** The part of producing a result row that does not concern the filter. */
  ghost predicate Yields(db: Database, t: BatchText, y: Row, r: Row) {
    if t.bridge.None? then
      r == Restrict(y, t.columns) && (t.inList.Some? ==> InListHolds(t.inList, Col(y, t.inList.value.column)))
    else exists b :: ProducesBridged(db, t, y, b, r)
  }

  /**
   An answer to one query, in terms of the query: the page of all result rows it asks for, each once, sorted as asked.
   */
  lemma OneQueryAnswered(db: Database, q: BatchQuery, rows: seq<Row>) returns (all: seq<Row>)
    requires WellFormedSet(q.filter) && TextOf([q]).ParsedBatch? && Bindable(TextOf([q]).text, Args([q]))
    requires Answers(db, TextOf([q]).text, Args([q]), rows)
    ensures Distinct(all) && rows == Slice(all, q.skip, q.limit) && InQueryOrder(db, q, all)
    ensures forall r :: r in all <==> exists y :: IsAsked(db, q, y) && IsShown(q, r, y)
  {
    var t, args := TextOf([q]).text, Args([q]);
    all :| AnswersAll(db, t, args, all) && rows == Slice(all, t.skip, t.limit);
    forall r: Row
      ensures r in all <==> exists y :: IsAsked(db, q, y) && IsShown(q, r, y)
    {
      ProducesIff(db, q, r);
    }
  }

  // ---------------------------------------------------------------- splitting

  function KeyColumn(j: JoinSpec): string {
    if j.bridge.Some? then j.bridge.value.parentKey else j.childColumn
  }

  /** `containsKey(f) && get(f).equals(id)`, which fails on a NULL. */
  predicate Belongs(j: JoinSpec, r: Row) {
    KeyColumn(j) in r && r[KeyColumn(j)] == j.parentId
  }

  function Split(q: BatchQuery, combined: seq<Row>): seq<Row> {
    if q.join.None? then [] else Keep(combined, (r: Row) => Belongs(q.join.value, r))
  }

  function SplitAll(qs: seq<BatchQuery>, combined: seq<Row>): seq<seq<Row>> {
    if |qs| == 1 then [combined] else Map(qs, (q: BatchQuery) => Split(q, combined))
  }

  predicate NoNullKey(qs: seq<BatchQuery>, combined: seq<Row>) {
    forall q, r: Row :: q in qs && r in combined && q.join.Some? && KeyColumn(q.join.value) in r ==>
      r[KeyColumn(q.join.value)].Val?
  }

  /** The nested loops of the split: one list per query, in the order of the queries; a NULL key makes them fail. */
  method MatchQueriesToResults(qs: seq<BatchQuery>, combined: seq<Row>) returns (ok: bool, r: seq<seq<Row>>)
    ensures ok <==> |qs| == 1 || NoNullKey(qs, combined)
    ensures ok ==> r == SplitAll(qs, combined)
  {
    if |qs| == 1 {
      return true, [combined];
    }
    r := [];
    for i := 0 to |qs|
      invariant |r| == i && forall k :: 0 <= k < i ==> r[k] == Split(qs[k], combined) && NoNullKey([qs[k]], combined)
    {
      var q := qs[i];
      var single := [];
      if q.join.Some? {
        var belongs := (row: Row) => Belongs(q.join.value, row);
        for k := 0 to |combined|
          invariant single == Keep(combined[..k], belongs) && NoNullKey([q], combined[..k])
        {
          var row := combined[k];
          assert combined[..k + 1] == combined[..k] + [row];
          KeepSnoc(combined[..k], row, belongs);
          if KeyColumn(q.join.value) in row {
            if row[KeyColumn(q.join.value)].Null? {
              assert q in qs && row in combined;
              return false, [];
            }
            if row[KeyColumn(q.join.value)] == q.join.value.parentId {
              single := single + [row];
            }
          }
        }
        assert combined[..|combined|] == combined;
      }
      r := r + [single];
    }
    forall q | q in qs
      ensures NoNullKey([q], combined)
    {
      var k :| 0 <= k < |qs| && qs[k] == q;
    }
    assert forall q :: q in qs ==> q in [q];
    ok := true;
  }

  // ---------------------------------------------------------------- one at a time

  /** The queries differ in nothing but the parent's key, which is not NULL. */
  predicate Fusible(qs: seq<BatchQuery>) {
    qs != [] && qs[0].join.Some? && qs[0].skip.None? && qs[0].limit.None? &&
    (qs[0].filter.Some? ==> WellFormed(qs[0].filter.value)) &&
    (qs[0].join.value.bridge.None? ==> qs[0].join.value.childColumn in qs[0].columns) &&
    forall q :: q in qs ==>
      q.join.Some? && q.join.value.parentId.Val? &&
      q == qs[0].(join := Some(qs[0].join.value.(parentId := q.join.value.parentId)))
  }

  lemma {:induction false} FusedIds(qs: seq<BatchQuery>, column: string)
    requires qs != []
    requires forall q :: q in qs ==> q.join.Some? && KeyColumn(q.join.value) == column
    ensures InColumn(qs) == Some(column)
    ensures forall v :: v in ParentIds(qs) <==> exists q :: q in qs && q.join.value.parentId == v
  {
    assert qs[0] in qs;
    if |qs| > 1 {
      FusedIds(qs[1..], column);
      assert forall q :: q in qs <==> q == qs[0] || q in qs[1..];
    } else {
      assert qs == [qs[0]];
    }
  }

  /** The fused statement compiles, and its parameters fit. */
  lemma TextFits(qs: seq<BatchQuery>)
    requires Fusible(qs)
    ensures TextOf(qs).ParsedBatch? && Bindable(TextOf(qs).text, Args(qs))
    ensures TextOf(qs).text == TextOf([qs[0]]).text.(inList := TextOf(qs).text.inList)
    ensures TextOf(qs).text.inList == Some(InList(KeyColumn(qs[0].join.value), ParentIds(qs)))
  {
    forall q | q in qs
      ensures KeyColumn(q.join.value) == KeyColumn(qs[0].join.value)
    {
    }
    FusedIds(qs, KeyColumn(qs[0].join.value));
    if qs[0].filter.Some? {
      var s := qs[0].filter.value;
      BindingMatchesCompiling(s, [qs[0].table]);
      CompileHoles(s, [qs[0].table], None);
    }
  }

  /** The fused IN list selects the keys of all queries, a query's own list its own key. */
  lemma ListsSelect(qs: seq<BatchQuery>, q: BatchQuery, v: Value)
    requires Fusible(qs) && q in qs
    ensures Fusible([q]) && TextOf(qs).ParsedBatch? && TextOf([q]).ParsedBatch?
    ensures var id := q.join.value.parentId; var t, one := TextOf(qs).text, TextOf([q]).text;
            one == t.(inList := one.inList) && Args(qs) == Args([q]) &&
            (InListHolds(one.inList, v) <==> v == id) && (v == id ==> InListHolds(t.inList, v)) &&
            t.inList.Some? && one.inList.Some? && t.inList.value.column == one.inList.value.column
  {
    TextFits(qs);
    TextFits([q]);
    IdsSelect(qs, q, v);
  }

  /** The key lists themselves. */
  lemma IdsSelect(qs: seq<BatchQuery>, q: BatchQuery, v: Value)
    requires Fusible(qs) && q in qs
    ensures var id := q.join.value.parentId;
            (AnyEqual(v, ParentIds([q])) == Yes <==> v == id) && (v == id ==> AnyEqual(v, ParentIds(qs)) == Yes)
  {
    var id := q.join.value.parentId;
    FusedIds(qs, KeyColumn(qs[0].join.value));
    assert ParentIds([q]) == [id] by {
      assert [q][1..] == [];
    }
    AnyEqualYes(v, [id]);
    AnyEqualYes(v, ParentIds(qs));
    assert id in ParentIds(qs);
  }

  /** A fused row is a row of the query whose parent key it carries, and of no other. */
  lemma FusedRow(db: Database, qs: seq<BatchQuery>, q: BatchQuery, r: Row)
    requires Fusible(qs) && q in qs
    ensures Fusible([q]) && TextOf(qs).ParsedBatch? && TextOf([q]).ParsedBatch?
    ensures Bindable(TextOf(qs).text, Args(qs)) && Bindable(TextOf([q]).text, Args([q]))
    ensures Produces(db, TextOf([q]).text, Args([q]), r) <==>
              Produces(db, TextOf(qs).text, Args(qs), r) && Belongs(q.join.value, r)
  {
    ListsSelect(qs, q, Null);
    TextFits(qs);
    TextFits([q]);
    var t, one, args := TextOf(qs).text, TextOf([q]).text, Args(qs);
    forall v: Value
      ensures InListHolds(one.inList, v) <==> v == q.join.value.parentId
      ensures v == q.join.value.parentId ==> InListHolds(t.inList, v)
    {
      ListsSelect(qs, q, v);
    }
    forall y
      ensures Chosen(db, t, args, y) <==> Chosen(db, one, args, y)
    {
    }
    if t.bridge.Some? {
      forall y, b
        ensures ProducesBridged(db, one, y, b, r) <==>
                  ProducesBridged(db, t, y, b, r) && Belongs(q.join.value, r)
      {
      }
    }
  }

  lemma {:induction false} KeepPreserves(co: Collation, field: string, descending: bool, s: seq<Row>, p: Row -> bool)
    requires Distinct(s) && SortedOn(co, field, descending, s)
    ensures Distinct(Keep(s, p)) && SortedOn(co, field, descending, Keep(s, p))
  {
    if s != [] {
      KeepPreserves(co, field, descending, s[1..], p);
      var rest := Keep(s[1..], p);
      forall r | r in rest
        ensures r != s[0] && !Precedes(co, field, descending, r, s[0])
      {
        var i :| 0 <= i < |s[1..]| && s[1..][i] == r;
        assert s[i + 1] == r;
      }
    }
  }

  /** The fused rows have no NULL where the split looks for parent keys. */
  lemma FusedKeysAreNotNull(db: Database, qs: seq<BatchQuery>, rows: seq<Row>)
    requires Fusible(qs) && TextOf(qs).ParsedBatch? && Bindable(TextOf(qs).text, Args(qs))
    requires AnswersAll(db, TextOf(qs).text, Args(qs), rows)
    ensures NoNullKey(qs, rows)
  {
    TextFits(qs);
    var t := TextOf(qs).text;
    forall q, r: Row | q in qs && r in rows
      ensures KeyColumn(q.join.value) in r && r[KeyColumn(q.join.value)].Val?
    {
      assert Produces(db, t, Args(qs), r);
      forall v: Value
        ensures InListHolds(t.inList, v) ==> v.Val?
      {
        AnyEqualYes(v, ParentIds(qs));
      }
    }
  }

  /**
   Batching refines one-at-a-time: whatever the database answers to the fused statement, exactly one list per query
   comes back, and the i-th list is an answer the database may give to query i alone.
   */
  lemma BatchRefinesSingles(db: Database, qs: seq<BatchQuery>, rows: seq<Row>, i: nat)
    requires Fusible(qs) && i < |qs| && TextOf(qs).ParsedBatch? && Bindable(TextOf(qs).text, Args(qs))
    requires Answers(db, TextOf(qs).text, Args(qs), rows)
    ensures NoNullKey(qs, rows) && |SplitAll(qs, rows)| == |qs|
    ensures TextOf([qs[i]]).ParsedBatch? && Bindable(TextOf([qs[i]]).text, Args([qs[i]]))
    ensures Answers(db, TextOf([qs[i]]).text, Args([qs[i]]), SplitAll(qs, rows)[i])
  {
    var q, mine := qs[i], SplitAll(qs, rows)[i];
    TextFits(qs);
    assert AnswersAll(db, TextOf(qs).text, Args(qs), rows) by {
      var all :| AnswersAll(db, TextOf(qs).text, Args(qs), all) && rows == Slice(all, None, None);
      assert Slice(all, None, None) == all;
    }
    FusedKeysAreNotNull(db, qs, rows);
    if |qs| == 1 {
      assert qs == [q];
    } else {
      forall r: Row
        ensures r in mine <==> Produces(db, TextOf([q]).text, Args([q]), r)
      {
        FusedRow(db, qs, q, r);
      }
      FusedRow(db, qs, q, map[]);
      KeepPreserves(db.collation, SortOf(q), q.descending, rows, (r: Row) => Belongs(q.join.value, r));
      assert AnswersAll(db, TextOf([q]).text, Args([q]), mine);
      assert Slice(mine, None, None) == mine;
    }
  }
}
