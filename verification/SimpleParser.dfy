/** The single-query compiler as it runs: joins, conditions, orderings, aliases and parameters grow step by step. */
module SimpleParser {
  import opened Truth
  import opened Names
  import opened Filters
  import opened FilterParser
  import opened Sql
  import opened Query
  import opened Ordering
  import opened Statement
  import opened AliasCache

  /** A SELECT under construction. */
  class SelectQuery {
    const from: string
    var joins: seq<Join>
    var where_: Option<Condition>
    var orderings: seq<OrderKey>
    var skip: Option<nat>
    var limit: Option<nat>

    constructor (from: string)
      ensures this.from == from && joins == [] && where_ == None && orderings == [] && skip == None && limit == None
    {
      this.from, joins, where_, orderings, skip, limit := from, [], None, [], None, None;
    }

    method AddJoin(j: Join)
      modifies this`joins
      ensures joins == old(joins) + [j]
    {
      joins := joins + [j];
    }

    method AddOrdering(k: OrderKey)
      modifies this`orderings
      ensures orderings == old(orderings) + [k]
    {
      orderings := orderings + [k];
    }

    /** The LIMIT and OFFSET clauses of a request that has them. */
    method AddCustomizations(q: Request)
      modifies this`skip, this`limit
      ensures skip == (if q.skip.Some? then q.skip else old(skip))
      ensures limit == (if q.limit.Some? then q.limit else old(limit))
    {
      if q.limit.Some? {
        limit := q.limit;
      }
      if q.skip.Some? {
        skip := q.skip;
      }
    }

    function Printed(): SelectText
      reads this
    {
      SelectText(from, joins, where_, orderings, skip, limit)
    }
  }

  /** The aliases a pass over the joins mentions, in order. */
  function EntriesOf(e: Edge, path: Path): seq<Entry>
    decreases e
  {
    [Entry(Dotted(path + [e.field]), e.hasMany)] + EntriesOfAll(e.node.edges, path + [e.field])
  }

  function EntriesOfAll(edges: seq<Edge>, path: Path): seq<Entry>
    decreases edges
  {
    if edges == [] then [] else EntriesOf(edges[0], path) + EntriesOfAll(edges[1..], path)
  }

  /** The joined tables are mentioned in the order of the joins. */
  lemma {:induction false} MentionedInJoinOrder(edges: seq<Edge>, path: Path)
    requires PlanEdges(edges, path).Plan?
    ensures var bs := PlanEdges(edges, path).joins;
            |EntriesOfAll(edges, path)| == |bs| &&
            forall i :: 0 <= i < |bs| ==> EntriesOfAll(edges, path)[i].name == Dotted(bs[i].join.path)
    decreases edges
  {
    if edges != [] {
      MentionedInJoinOrder(edges[0].node.edges, path + [edges[0].field]);
      MentionedInJoinOrder(edges[1..], path);
    }
  }

  /** The key columns recorded for the joined tables. */
  function WithKeys(keys: map<string, string>, q: Request, bs: seq<BoundJoin>): map<string, string>
    decreases bs
  {
    if bs == [] then keys
    else WithKeys(keys[Dotted(bs[0].join.path) := KeyFor(q, bs[0].join.path)], q, bs[1..])
  }

  lemma {:induction false} WithKeysAppend(keys: map<string, string>, q: Request, a: seq<BoundJoin>, b: seq<BoundJoin>)
    ensures WithKeys(keys, q, a + b) == WithKeys(WithKeys(keys, q, a), q, b)
    decreases a
  {
    if a == [] {
      assert a + b == b;
    } else {
      assert (a + b)[1..] == a[1..] + b;
      WithKeysAppend(keys[Dotted(a[0].join.path) := KeyFor(q, a[0].join.path)], q, a[1..], b);
    }
  }

  lemma {:induction false} AddEntriesAppend(order: seq<Entry>, a: seq<Entry>, b: seq<Entry>)
    ensures AddEntries(order, a + b) == AddEntries(AddEntries(order, a), b)
    decreases a
  {
    if a == [] {
      assert a + b == b;
    } else {
      assert (a + b)[1..] == a[1..] + b;
      AddEntriesAppend(AddEntry(order, a[0]), a[1..], b);
    }
  }

  lemma {:induction false} ArgsAppend(a: seq<BoundJoin>, b: seq<BoundJoin>)
    ensures ArgsIn(a + b) == ArgsIn(a) + ArgsIn(b)
    decreases a
  {
    if a == [] {
      assert a + b == b;
    } else {
      assert (a + b)[1..] == a[1..] + b;
      ArgsAppend(a[1..], b);
    }
  }

  /** Everything the parser has written so far. */
  datatype Written = Written(
    joins: seq<Join>, orderings: seq<OrderKey>, parameters: seq<Operand>, order: seq<Entry>,
    keys: map<string, string>, tables: set<Path>)

  /** What a pass over planned joins adds. */
  function AfterJoins(w: Written, q: Request, bs: seq<BoundJoin>, es: seq<Entry>, ordered: bool): Written {
    Written(w.joins + JoinsIn(bs), w.orderings + (if ordered then JoinKeys(q, bs) else []),
            w.parameters + ArgsIn(bs), AddEntries(w.order, es), WithKeys(w.keys, q, bs), w.tables + Paths(bs))
  }

  lemma JoinKeysAppend(q: Request, a: seq<BoundJoin>, b: seq<BoundJoin>)
    ensures JoinKeys(q, a + b) == JoinKeys(q, a) + JoinKeys(q, b)
    ensures JoinsIn(a + b) == JoinsIn(a) + JoinsIn(b)
  {
  }

  lemma PathsAppend(a: seq<BoundJoin>, b: seq<BoundJoin>)
    ensures Paths(a + b) == Paths(a) + Paths(b)
  {
  }

  lemma AfterJoinsAppend(
      w: Written, q: Request, a: seq<BoundJoin>, b: seq<BoundJoin>, es: seq<Entry>, fs: seq<Entry>, ordered: bool)
    ensures AfterJoins(AfterJoins(w, q, a, es, ordered), q, b, fs, ordered) == AfterJoins(w, q, a + b, es + fs, ordered)
  {
    ArgsAppend(a, b);
    AddEntriesAppend(w.order, es, fs);
    WithKeysAppend(w.keys, q, a, b);
    PathsAppend(a, b);
    JoinKeysAppend(q, a, b);
    Associative(w.joins, JoinsIn(a), JoinsIn(b));
    Associative(w.parameters, ArgsIn(a), ArgsIn(b));
    Associative(w.orderings, if ordered then JoinKeys(q, a) else [], if ordered then JoinKeys(q, b) else []);
  }

  lemma Associative<T>(x: seq<T>, y: seq<T>, z: seq<T>)
    ensures (x + y) + z == x + (y + z)
  {
  }

  lemma AfterOneJoin(w: Written, q: Request, b: BoundJoin, e: Entry, ordered: bool)
    ensures AfterJoins(w, q, [b], [e], ordered) ==
              Written(w.joins + [b.join],
                      w.orderings +
                      (if ordered then [OrderKey(Column(b.join.path, KeyFor(q, b.join.path)), true)] else []),
                      w.parameters + b.args, AddEntry(w.order, e),
                      w.keys[Dotted(b.join.path) := KeyFor(q, b.join.path)], w.tables + {b.join.path})
  {
    assert [b][1..] == [] && [e][1..] == [];
    assert JoinsIn([b]) == [b.join];
    assert JoinKeys(q, [b]) == [OrderKey(Column(b.join.path, KeyFor(q, b.join.path)), true)];
    assert Paths([b]) == {b.join.path};
    assert ArgsIn([b]) == b.args + [] == b.args;
    var one := AfterJoins(w, q, [b], [e], ordered);
    assert one.order == AddEntries(AddEntry(w.order, e), []);
    assert one.keys == WithKeys(w.keys[Dotted(b.join.path) := KeyFor(q, b.join.path)], q, []);
  }

  /** The first i fields of a level have added `done` and `names`; the rest is still to come. */
  predicate Underway(edges: seq<Edge>, path: Path, i: nat, done: seq<BoundJoin>, names: seq<Entry>)
    requires i <= |edges|
  {
    var rest := PlanEdges(edges[i..], path);
    PlanEdges(edges, path) == (if rest.NoPlan? then rest else Plan(done + rest.joins)) &&
    EntriesOfAll(edges, path) == names + EntriesOfAll(edges[i..], path)
  }

  lemma UnderwayStarts(w: Written, q: Request, edges: seq<Edge>, path: Path, ordered: bool)
    ensures Underway(edges, path, 0, [], []) && AfterJoins(w, q, [], [], ordered) == w
  {
    assert edges[0..] == edges;
    assert Paths([]) == {} && JoinKeys(q, []) == [] && JoinsIn([]) == [];
  }

  lemma UnderwayStep(edges: seq<Edge>, path: Path, i: nat, done: seq<BoundJoin>, names: seq<Entry>)
    requires i < |edges| && Underway(edges, path, i, done, names)
    ensures PlanEdge(edges[i], path).NoPlan? ==> PlanEdges(edges, path) == PlanEdge(edges[i], path)
    ensures PlanEdge(edges[i], path).Plan? ==>
              Underway(edges, path, i + 1, done + PlanEdge(edges[i], path).joins, names + EntriesOf(edges[i], path))
  {
    PlanStep(edges, path, i);
    var first, later := PlanEdge(edges[i], path), PlanEdges(edges[i + 1..], path);
    if first.Plan? {
      if later.Plan? {
        assert done + (first.joins + later.joins) == (done + first.joins) + later.joins;
      }
      var e, es := EntriesOf(edges[i], path), EntriesOfAll(edges[i + 1..], path);
      assert names + (e + es) == (names + e) + es;
    }
  }

  lemma UnderwayEnds(edges: seq<Edge>, path: Path, done: seq<BoundJoin>, names: seq<Entry>)
    requires Underway(edges, path, |edges|, done, names)
    ensures PlanEdges(edges, path) == Plan(done) && EntriesOfAll(edges, path) == names
  {
    assert edges[|edges|..] == [];
    assert done + [] == done && names + [] == names;
  }

  /** The plan of one level, split at the i-th field. */
  lemma PlanStep(edges: seq<Edge>, path: Path, i: nat)
    requires i < |edges|
    ensures var rest := PlanEdges(edges[i..], path);
            var first, later := PlanEdge(edges[i], path), PlanEdges(edges[i + 1..], path);
            rest == if first.NoPlan? then first else if later.NoPlan? then later else Plan(first.joins + later.joins)
    ensures EntriesOfAll(edges[i..], path) == EntriesOf(edges[i], path) + EntriesOfAll(edges[i + 1..], path)
  {
    assert edges[i..][1..] == edges[i + 1..];
  }

  /** What building one SELECT adds: sort, joins, the parameters of the root filter. */
  function AfterSelect(w: Written, q: Request, plan: seq<BoundJoin>, root: Emitted, isSub: bool, isAggregate: bool)
    : Written
  {
    var sorted := w.(orderings := w.orderings + if isAggregate then AggregateKeys(q) else SortKeys(q));
    var joined := AfterJoins(sorted, q, plan, EntriesOfAll(q.root.edges, RootPath(q)), !isSub && !isAggregate);
    joined.(parameters := joined.parameters + if root.Emit? then root.parameters else [])
  }

  function RootEntry(q: Request): Entry {
    Entry(q.root.table, false)
  }

  function OrderOf(q: Request): seq<Entry> {
    var es := EntriesOfAll(q.root.edges, RootPath(q));
    var once := AddEntries([RootEntry(q)], es);
    if q.aggregate then once else AddEntries(once, es)
  }

  function KeysOf(q: Request): map<string, string> {
    var plan := PlanEdges(q.root.edges, RootPath(q));
    var bs := if plan.Plan? then plan.joins else [];
    var once := WithKeys(map[q.root.table := RootId(q)], q, bs);
    if q.aggregate then once else WithKeys(once, q, bs)
  }

  function Stored(w: Written): Written {
    w.(joins := [], orderings := [])
  }

  predicate Fresh(w: Written, q: Request) {
    w.joins == [] && w.orderings == [] && w.parameters == [] && w.order == [RootEntry(q)] &&
    w.keys == map[q.root.table := RootId(q)] && w.tables == {RootPath(q)}
  }

  lemma FirstSelect(w: Written, q: Request)
    requires Fresh(w, q) && !Planning(q).1.Fails?
    ensures var (plan, root) := Planning(q);
            var after := AfterSelect(w, q, plan.joins, root, !q.aggregate, q.aggregate);
            after.joins == JoinsIn(plan.joins) && after.parameters == ParametersOf(plan.joins, root) &&
            after.orderings == (if q.aggregate then AggregateKeys(q) else SortKeys(q)) &&
            after.tables == {RootPath(q)} + Paths(plan.joins) &&
            (q.aggregate ==> after.order == OrderOf(q) && after.keys == KeysOf(q))
  {
    var (plan, root) := Planning(q);
    assert [] + JoinsIn(plan.joins) == JoinsIn(plan.joins) && [] + ArgsIn(plan.joins) == ArgsIn(plan.joins);
    var keys := if q.aggregate then AggregateKeys(q) else SortKeys(q);
    assert [] + keys == keys && keys + [] == keys;
  }

  /** One SELECT, field by field. */
  lemma SelectAdds(w: Written, q: Request, plan: seq<BoundJoin>, root: Emitted)
    requires w.joins == [] && w.orderings == []
    ensures var after, es := AfterSelect(w, q, plan, root, false, false), EntriesOfAll(q.root.edges, RootPath(q));
            after.joins == JoinsIn(plan) && after.orderings == SortKeys(q) + JoinKeys(q, plan) &&
            after.order == AddEntries(w.order, es) && after.keys == WithKeys(w.keys, q, plan) &&
            after.parameters == w.parameters + ParametersOf(plan, root)
  {
    var own := if root.Emit? then root.parameters else [];
    Associative(w.parameters, ArgsIn(plan), own);
    assert [] + JoinsIn(plan) == JoinsIn(plan) && [] + SortKeys(q) == SortKeys(q);
  }

  lemma SecondSelect(w: Written, m: Written, q: Request)
    requires Fresh(w, q) && !Planning(q).1.Fails? && !q.aggregate
    requires m == Stored(AfterSelect(w, q, Planning(q).0.joins, Planning(q).1, true, false))
    ensures var (plan, root) := Planning(q);
            var after := AfterSelect(m, q, plan.joins, root, false, false);
            after.joins == JoinsIn(plan.joins) && after.orderings == SortKeys(q) + JoinKeys(q, plan.joins) &&
            after.parameters == ParametersOf(plan.joins, root) + ParametersOf(plan.joins, root) &&
            after.order == OrderOf(q) && after.keys == KeysOf(q)
  {
    var (plan, root) := Planning(q);
    FirstSelect(w, q);
    SelectAdds(m, q, plan.joins, root);
    StoredOnce(w, q, plan.joins, root);
  }

  /** What is left after the sub-select. */
  lemma StoredOnce(w: Written, q: Request, plan: seq<BoundJoin>, root: Emitted)
    ensures var m := Stored(AfterSelect(w, q, plan, root, true, false));
            m.order == AddEntries(w.order, EntriesOfAll(q.root.edges, RootPath(q))) &&
            m.keys == WithKeys(w.keys, q, plan)
  {
  }

  class SQLSimpleParser {
    const aliasCache: SQLAliasCache
    const sqlQuery: SqlQuery

    constructor ()
      ensures fresh(aliasCache) && fresh(sqlQuery) && aliasCache.Valid()
      ensures aliasCache.order == [] && aliasCache.tableByPath == {} && aliasCache.tablePathKey == map[]
      ensures sqlQuery.parameters == []
    {
      aliasCache := new SQLAliasCache();
      sqlQuery := new SqlQuery();
    }

    ghost function Now(select: SelectQuery): Written
      reads select, sqlQuery, aliasCache
    {
      Written(select.joins, select.orderings, sqlQuery.parameters, aliasCache.order,
              aliasCache.tablePathKey, aliasCache.tableByPath)
    }

    /** The ON filter is compiled without aliases, on the joined table. */
    method AddOnFilter(e: Edge, path: Path) returns (emitted: Emitted)
      modifies sqlQuery
      ensures emitted == OnFilter(e, path)
      ensures !emitted.Fails? ==> sqlQuery.parameters == old(sqlQuery.parameters) + OwnJoin(e, path).args
    {
      if e.node.filter.None? {
        return NoCondition;
      }
      emitted := ParseFilterSet(e.node.filter.value, path + [e.field], None, sqlQuery);
      if emitted.NoCondition? {
        emitted := Fails(NullCondition);
      }
    }

    /** The joined table: its alias, its key column, its path. */
    method AddJoinedTable(q: Request, e: Edge, at: Path)
      requires aliasCache.Valid()
      modifies aliasCache
      ensures aliasCache.Valid() && aliasCache.order == AddEntry(old(aliasCache.order), Entry(Dotted(at), e.hasMany))
      ensures aliasCache.tablePathKey == old(aliasCache.tablePathKey)[Dotted(at) := KeyFor(q, at)]
      ensures aliasCache.tableByPath == old(aliasCache.tableByPath) + {at}
    {
      var alias := aliasCache.AddAliasMapping(Dotted(at), e.hasMany);
      aliasCache.AddTablePathKey(Dotted(at), KeyFor(q, at));
      aliasCache.AddTable(at);
    }

    /** The join itself: alias, key, ON filter with its parameters, ordering. */
    method AddOwnJoin(q: Request, e: Edge, path: Path, select: SelectQuery, ordered: bool)
      returns (error: Option<Error>)
      requires aliasCache.Valid()
      modifies aliasCache, sqlQuery, select`joins, select`orderings
      ensures aliasCache.Valid()
      ensures error == if OnFilter(e, path).Fails? then Some(OnFilter(e, path).error) else None
      ensures error.None? ==>
                Now(select) == AfterJoins(old(Now(select)), q, [OwnJoin(e, path)],
                                          [Entry(Dotted(path + [e.field]), e.hasMany)], ordered)
    {
      ghost var before := Now(select);
      var at := path + [e.field];
      AddJoinedTable(q, e, at);
      var emitted := AddOnFilter(e, path);
      if emitted.Fails? {
        return Some(emitted.error);
      }
      error := None;
      AfterOneJoin(before, q, OwnJoin(e, path), Entry(Dotted(at), e.hasMany), ordered);
      select.AddJoin(JoinOf(e, path, if emitted.Emit? then Some(emitted.condition) else None));
      assert select.joins == before.joins + [OwnJoin(e, path).join];
      if ordered {
        select.AddOrdering(OrderKey(Column(at, KeyFor(q, at)), true));
      }
    }

    /** A join and the joins below it, in preorder. */
    method AddJoin(q: Request, e: Edge, path: Path, select: SelectQuery, ordered: bool)
      returns (error: Option<Error>)
      requires aliasCache.Valid()
      modifies aliasCache, sqlQuery, select`joins, select`orderings
      ensures aliasCache.Valid()
      ensures var plan := PlanEdge(e, path);
              error == if plan.NoPlan? then Some(plan.error) else None
      ensures error.None? ==>
                Now(select) == AfterJoins(old(Now(select)), q, PlanEdge(e, path).joins, EntriesOf(e, path), ordered)
      decreases e
    {
      ghost var before := Now(select);
      error := AddOwnJoin(q, e, path, select, ordered);
      if error.Some? {
        return;
      }
      error := AddJoins(q, e.node.edges, path + [e.field], select, ordered);
      if error.None? {
        AfterJoinsAppend(before, q, [OwnJoin(e, path)], PlanEdges(e.node.edges, path + [e.field]).joins,
                         [Entry(Dotted(path + [e.field]), e.hasMany)],
                         EntriesOfAll(e.node.edges, path + [e.field]), ordered);
      }
    }

    /** The loop over the joins of one level. */
    method AddJoins(q: Request, edges: seq<Edge>, path: Path, select: SelectQuery, ordered: bool)
      returns (error: Option<Error>)
      requires aliasCache.Valid()
      modifies aliasCache, sqlQuery, select`joins, select`orderings
      ensures aliasCache.Valid()
      ensures var plan := PlanEdges(edges, path);
              error == if plan.NoPlan? then Some(plan.error) else None
      ensures error.None? ==>
                Now(select) == AfterJoins(old(Now(select)), q, PlanEdges(edges, path).joins,
                                          EntriesOfAll(edges, path), ordered)
      decreases edges
    {
      ghost var before := Now(select);
      ghost var done, names := [], [];
      error := None;
      UnderwayStarts(before, q, edges, path, ordered);
      for i := 0 to |edges|
        invariant aliasCache.Valid() && error.None? && Underway(edges, path, i, done, names)
        invariant Now(select) == AfterJoins(before, q, done, names, ordered)
      {
        var e := edges[i];
        UnderwayStep(edges, path, i, done, names);
        error := AddJoin(q, e, path, select, ordered);
        if error.Some? {
          return;
        }
        AfterJoinsAppend(before, q, done, PlanEdge(e, path).joins, names, EntriesOf(e, path), ordered);
        done, names := done + PlanEdge(e, path).joins, names + EntriesOf(e, path);
      }
      UnderwayEnds(edges, path, done, names);
    }

    method AddSort(q: Request, select: SelectQuery, isAggregate: bool)
      modifies select`orderings
      ensures select.orderings == old(select.orderings) + if isAggregate then AggregateKeys(q) else SortKeys(q)
    {
      if isAggregate && (q.sort.field.None? || q.sort.field.value == RootId(q)) {
        return;
      }
      var field := if q.sort.field.Some? then q.sort.field.value else RootId(q);
      select.AddOrdering(OrderKey(Column(RootPath(q), field), q.sort.descending));
      if !isAggregate && field != RootId(q) && field != DEFAULT_ID {
        select.AddOrdering(OrderKey(Column(RootPath(q), RootId(q)), false));
      }
    }

    /** The root filter may refer to every joined table. */
    method AddRootFilter(q: Request, select: SelectQuery) returns (error: Option<Error>)
      requires aliasCache.Valid() && select.where_ == None && PlanEdges(q.root.edges, RootPath(q)).Plan?
      requires aliasCache.tableByPath == {RootPath(q)} + Paths(PlanEdges(q.root.edges, RootPath(q)).joins)
      modifies sqlQuery, select`where_
      ensures aliasCache.Valid()
      ensures var (plan, root) := Planning(q);
              error == (if root.Fails? then Some(root.error) else None) &&
              (error.None? ==>
                 select.where_ == WhereOf(root) &&
                 sqlQuery.parameters == old(sqlQuery.parameters) + if root.Emit? then root.parameters else [])
    {
      error := None;
      if q.root.filter.Some? {
        var root := ParseFilterSet(q.root.filter.value, RootPath(q), Some(aliasCache.tableByPath), sqlQuery);
        if root.Fails? {
          return Some(root.error);
        }
        if root.Emit? {
          select.where_ := Some(root.condition);
        }
      }
    }

    /** One SELECT: sort, joins, root filter. A failing filter stops the parser. */
    method BuildSelectQuery(q: Request, select: SelectQuery, isSub: bool, isAggregate: bool)
      returns (error: Option<Error>)
      requires aliasCache.Valid() && select.where_ == None
      requires PlanEdges(q.root.edges, RootPath(q)).Plan? ==>
                 {RootPath(q)} <= aliasCache.tableByPath <=
                 {RootPath(q)} + Paths(PlanEdges(q.root.edges, RootPath(q)).joins)
      modifies aliasCache, sqlQuery, select`joins, select`orderings, select`where_
      ensures aliasCache.Valid()
      ensures var (plan, root) := Planning(q);
              error == (if root.Fails? then Some(root.error) else None) &&
              (error.None? ==>
                 select.where_ == WhereOf(root) &&
                 Now(select) == AfterSelect(old(Now(select)), q, plan.joins, root, isSub, isAggregate))
    {
      AddSort(q, select, isAggregate);
      error := AddJoins(q, q.root.edges, RootPath(q), select, !isSub && !isAggregate);
      if error.None? {
        error := AddRootFilter(q, select);
      }
    }

    /** The root table is the first alias. */
    method AddRoot(q: Request)
      requires aliasCache.Valid() && aliasCache.order == [] && aliasCache.tableByPath == {}
      requires aliasCache.tablePathKey == map[]
      modifies aliasCache
      ensures aliasCache.Valid() && aliasCache.order == [RootEntry(q)] && aliasCache.tableByPath == {RootPath(q)}
      ensures aliasCache.tablePathKey == map[q.root.table := RootId(q)]
    {
      var alias := aliasCache.AddAliasMapping(q.root.table, false);
      aliasCache.AddTable(RootPath(q));
      aliasCache.AddTablePathKey(q.root.table, RootId(q));
    }

    /** The whole compilation: the sub-select in the FROM clause of the outer one, or a single aggregate. */
    method Parse(q: Request) returns (r: Compiled)
      requires aliasCache.Valid() && aliasCache.order == [] && aliasCache.tableByPath == {}
      requires aliasCache.tablePathKey == map[] && sqlQuery.parameters == []
      modifies aliasCache, sqlQuery
      ensures aliasCache.Valid()
      ensures r == CompileRequest(q)
      ensures r.Compiled? ==>
                sqlQuery.parameters == r.parameters && aliasCache.order == OrderOf(q) &&
                aliasCache.tablePathKey == KeysOf(q)
    {
      AddRoot(q);
      var select := new SelectQuery(q.root.table);
      select.AddCustomizations(q);
      ghost var start := Now(select);
      var error := BuildSelectQuery(q, select, !q.aggregate, q.aggregate);
      if error.Some? {
        return Rejected(error.value);
      }
      FirstSelect(start, q);
      if q.aggregate {
        return Compiled(Aggregate(select.Printed()), sqlQuery.parameters);
      }
      r := ParseOuter(q, select.Printed(), start);
    }

    /** The outer SELECT goes over the same joins and filters again. */
    method ParseOuter(q: Request, sub: SelectText, ghost start: Written) returns (r: Compiled)
      requires aliasCache.Valid() && Fresh(start, q) && !q.aggregate && !Planning(q).1.Fails?
      requires sub == SubSelect(q, Planning(q).0.joins, Planning(q).1)
      requires State() == Stored(AfterSelect(start, q, Planning(q).0.joins, Planning(q).1, true, false))
      modifies aliasCache, sqlQuery
      ensures aliasCache.Valid()
      ensures r == CompileRequest(q)
      ensures sqlQuery.parameters == r.parameters && aliasCache.order == OrderOf(q) &&
              aliasCache.tablePathKey == KeysOf(q)
    {
      var outer := new SelectQuery(q.root.table);
      ghost var middle := Now(outer);
      FirstSelect(start, q);
      var error := BuildSelectQuery(q, outer, false, false);
      if error.Some? {
        assert false;
      }
      SecondSelect(start, middle, q);
      r := Compiled(Paged(sub, outer.Printed()), sqlQuery.parameters);
    }

    /** What outlives a SELECT: parameters and alias cache. */
    ghost function State(): Written
      reads sqlQuery, aliasCache
    {
      Written([], [], sqlQuery.parameters, aliasCache.order, aliasCache.tablePathKey, aliasCache.tableByPath)
    }
  }
}
