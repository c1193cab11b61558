/**
 The text of the single query and its execution: parameters are positions in the text, the sub-select pages the
 root rows, the outer select joins and filters them again.
 */
module Statement {
  import opened Truth
  import opened Filters
  import opened FilterLaws
  import opened Seqs
  import opened Sql
  import opened Query
  import opened Ordering

  // ---------------------------------------------------------------- text and positions

  /**
   One SELECT as printed: the root table it reads (the outer SELECT reads the sub-select under that name), the joins in
   FROM, then WHERE, ORDER BY, LIMIT and OFFSET.
   */
  datatype SelectText = SelectText(
    from: string, joins: seq<Join>, where_: Option<Condition>, orderings: seq<OrderKey>,
    skip: Option<nat>, limit: Option<nat>)

  /** An aggregate is one SELECT; otherwise the sub-select stands in the FROM clause of the outer one. */
  datatype Text = Aggregate(select: SelectText) | Paged(sub: SelectText, outer: SelectText)

  function JoinHoles(js: seq<Join>): nat {
    if js == [] then 0 else FilterHoles(js[0].filter) + JoinHoles(js[1..])
  }

  function SelectHoles(s: SelectText): nat {
    JoinHoles(s.joins) + FilterHoles(s.where_)
  }

  function TextHoles(t: Text): nat {
    match t
    case Aggregate(s) => SelectHoles(s)
    case Paged(sub, outer) => SelectHoles(sub) + SelectHoles(outer)
  }

  /** A SELECT whose `?` have their values. */
  datatype BoundSelect = BoundSelect(
    from: string, joins: seq<BoundJoin>, where_: Option<Condition>, args: seq<Operand>, orderings: seq<OrderKey>,
    skip: Option<nat>, limit: Option<nat>)

  /** The i-th parameter goes to the i-th `?` of the text. */
  function BindJoins(js: seq<Join>, ps: seq<Operand>): seq<BoundJoin>
    requires |ps| == JoinHoles(js)
  {
    if js == [] then []
    else
      var h := FilterHoles(js[0].filter);
      [BoundJoin(js[0], ps[..h])] + BindJoins(js[1..], ps[h..])
  }

  function BindSelect(s: SelectText, ps: seq<Operand>): BoundSelect
    requires |ps| == SelectHoles(s)
  {
    var h := JoinHoles(s.joins);
    BoundSelect(s.from, BindJoins(s.joins, ps[..h]), s.where_, ps[h..], s.orderings, s.skip, s.limit)
  }

  function BindText(t: Text, ps: seq<Operand>): seq<BoundSelect>
    requires |ps| == TextHoles(t)
  {
    match t
    case Aggregate(s) => [BindSelect(s, ps)]
    case Paged(sub, outer) =>
      var h := SelectHoles(sub);
      [BindSelect(sub, ps[..h]), BindSelect(outer, ps[h..])]
  }

  // ---------------------------------------------------------------- what a database accepts

  /** The names of the tables a FROM clause brings into sight. */
  function TablesAfter(tables: map<Path, string>, js: seq<Join>): map<Path, string>
    decreases js
  {
    if js == [] then tables else TablesAfter(tables[js[0].path := js[0].table], js[1..])
  }

  predicate Known(db: Database, tables: map<Path, string>, c: Column) {
    c.table in tables && HasColumn(db, tables[c.table], c.field)
  }

  predicate ConditionKnown(db: Database, tables: map<Path, string>, c: Option<Condition>) {
    c.Some? ==> forall column :: column in NamedIn(c.value) ==> Known(db, tables, column)
  }

  predicate JoinKnown(db: Database, tables: map<Path, string>, j: Join) {
    Known(db, tables, Column(j.parent, j.parentColumn)) && HasColumn(db, j.table, j.childColumn) &&
    (j.bridge.Some? ==>
       HasColumn(db, j.bridge.value.table, j.bridge.value.parentKey) &&
       HasColumn(db, j.bridge.value.table, j.bridge.value.childKey)) &&
    ConditionKnown(db, tables[j.path := j.table], j.filter)
  }

  /** A join gives its table a new name; its ON condition sees the tables up to it. */
  predicate JoinsKnown(db: Database, tables: map<Path, string>, js: seq<Join>)
    decreases js
  {
    js == [] ||
    (js[0].path !in tables && JoinKnown(db, tables, js[0]) &&
     JoinsKnown(db, tables[js[0].path := js[0].table], js[1..]))
  }

  function TablesIn(s: SelectText): map<Path, string> {
    TablesAfter(map[[s.from] := s.from], s.joins)
  }

  predicate SelectKnown(db: Database, s: SelectText) {
    JoinsKnown(db, map[[s.from] := s.from], s.joins) && ConditionKnown(db, TablesIn(s), s.where_) &&
    forall k :: k in s.orderings ==> Known(db, TablesIn(s), k.column)
  }

  /** A SELECT DISTINCT is ordered by columns it selects (section 13.1 of ISO/IEC 9075:1992). */
  predicate OrdersSelected(keys: seq<OrderKey>, labels: map<string, Column>) {
    forall k :: k in keys ==> k.column in labels.Values
  }

  /**
   A database takes a paged text when every column it names exists and both SELECTs are ordered by what they select:
   the sub-select by columns of its root table, the outer one by labelled columns.
   */
  predicate Legal(db: Database, text: Text, labels: map<string, Column>)
    requires text.Paged?
  {
    SelectKnown(db, text.sub) && SelectKnown(db, text.outer) && text.outer.from == text.sub.from &&
    (forall k :: k in text.sub.orderings ==> k.column.table == [text.sub.from]) &&
    OrdersSelected(text.outer.orderings, labels) &&
    forall l :: l in labels ==> Known(db, TablesIn(text.outer), labels[l])
  }

  // ---------------------------------------------------------------- compiling a request

  datatype Sort = Sort(field: Option<string>, descending: bool)

  datatype Request = Request(root: Node, skip: Option<nat>, limit: Option<nat>, sort: Sort, aggregate: bool)

  function RootPath(q: Request): Path {
    [q.root.table]
  }

  function JoinsIn(bs: seq<BoundJoin>): seq<Join> {
    seq(|bs|, i requires 0 <= i < |bs| => bs[i].join)
  }

  function ArgsIn(bs: seq<BoundJoin>): seq<Operand> {
    if bs == [] then [] else bs[0].args + ArgsIn(bs[1..])
  }

  datatype Compiled = Compiled(text: Text, parameters: seq<Operand>) | Rejected(error: Error)

  /** The root filter sees every joined table by its path. */
  function RootFilter(q: Request, joined: set<Path>): Emitted {
    if q.root.filter.None? then NoCondition
    else Compile(q.root.filter.value, RootPath(q), Some({RootPath(q)} + joined))
  }

  /** What one pass over joins and root filter prints, with the parameters it collects. */
  function Planning(q: Request): (Planned, Emitted) {
    var plan := PlanEdges(q.root.edges, RootPath(q));
    if plan.NoPlan? then (plan, Fails(plan.error)) else (plan, RootFilter(q, Paths(plan.joins)))
  }

  function WhereOf(root: Emitted): Option<Condition> {
    if root.Emit? then Some(root.condition) else None
  }

  function RootId(q: Request): string {
    q.root.key
  }

  /** The root's sort field, then its primary key unless the field already is the key or "id". */
  function SortKeys(q: Request): seq<OrderKey> {
    var field := if q.sort.field.Some? then q.sort.field.value else RootId(q);
    [OrderKey(Column(RootPath(q), field), q.sort.descending)] +
    if field != RootId(q) && field != DEFAULT_ID then [OrderKey(Column(RootPath(q), RootId(q)), false)] else []
  }

  /** The sort field of a request is the default one, or one of the selected columns. */
  predicate SortSelected(q: Request) {
    q.sort.field.Some? ==> q.sort.field.value in q.root.columns
  }

  /** The key of a selected type, searched in the projection tree by path. */
  function PrimaryKeyForPath(n: Node, at: Path, path: Path): Option<string>
    decreases n
  {
    if at == path then Some(n.key) else PrimaryKeyBelow(n.edges, at, path)
  }

  function PrimaryKeyBelow(edges: seq<Edge>, at: Path, path: Path): Option<string>
    decreases edges
  {
    if edges == [] then None
    else
      var found := PrimaryKeyForPath(edges[0].node, at + [edges[0].field], path);
      if found.Some? then found else PrimaryKeyBelow(edges[1..], at, path)
  }

  function KeyFor(q: Request, path: Path): string {
    var found := PrimaryKeyForPath(q.root, RootPath(q), path);
    if found.Some? then found.value else ""
  }

  /** The outer SELECT also sorts by the keys of the joined tables, descending, in join order. */
  function JoinKeys(q: Request, bs: seq<BoundJoin>): seq<OrderKey> {
    Map(bs, (b: BoundJoin) => OrderKey(Column(b.join.path, KeyFor(q, b.join.path)), true))
  }

  /** An aggregate is sorted only by a field other than the key. */
  function AggregateKeys(q: Request): seq<OrderKey> {
    if q.sort.field.None? || q.sort.field.value == RootId(q) then []
    else [OrderKey(Column(RootPath(q), q.sort.field.value), q.sort.descending)]
  }

  /** The sub-select is sorted and paged; its rows are the roots. */
  function SubSelect(q: Request, plan: seq<BoundJoin>, root: Emitted): SelectText {
    SelectText(q.root.table, JoinsIn(plan), WhereOf(root), SortKeys(q), q.skip, q.limit)
  }

  /**
   The outer SELECT joins and filters the page again and sorts by the joined tables too; it has no page of its own.
   */
  function OuterSelect(q: Request, plan: seq<BoundJoin>, root: Emitted): SelectText {
    SelectText(q.root.table, JoinsIn(plan), WhereOf(root), SortKeys(q) + JoinKeys(q, plan), None, None)
  }

  function AggregateSelect(q: Request, plan: seq<BoundJoin>, root: Emitted): SelectText {
    SelectText(q.root.table, JoinsIn(plan), WhereOf(root), AggregateKeys(q), q.skip, q.limit)
  }

  function ParametersOf(plan: seq<BoundJoin>, root: Emitted): seq<Operand> {
    ArgsIn(plan) + if root.Emit? then root.parameters else []
  }

  /** An aggregate passes once over joins and filter, a normal query twice. */
  function CompileRequest(q: Request): Compiled {
    var (plan, root) := Planning(q);
    if root.Fails? then Rejected(root.error)
    else
      var ps := ParametersOf(plan.joins, root);
      if q.aggregate then Compiled(Aggregate(AggregateSelect(q, plan.joins, root)), ps)
      else Compiled(Paged(SubSelect(q, plan.joins, root), OuterSelect(q, plan.joins, root)), ps + ps)
  }

  // ---------------------------------------------------------------- positional alignment

  lemma {:induction false} BindingUndoesCollecting(bs: seq<BoundJoin>)
    requires AllFit(bs)
    ensures JoinHoles(JoinsIn(bs)) == |ArgsIn(bs)|
    ensures BindJoins(JoinsIn(bs), ArgsIn(bs)) == bs
  {
    if bs != [] {
      assert bs[0] in bs;
      assert JoinsIn(bs)[1..] == JoinsIn(bs[1..]);
      BindingUndoesCollecting(bs[1..]);
      assert ArgsIn(bs)[..|bs[0].args|] == bs[0].args && ArgsIn(bs)[|bs[0].args|..] == ArgsIn(bs[1..]);
    }
  }

  /** The three SELECTs as intended: every condition with the parameters compiled for it. */
  function Intention(q: Request, plan: seq<BoundJoin>, root: Emitted): BoundSelect {
    BoundSelect(q.root.table, plan, WhereOf(root), if root.Emit? then root.parameters else [], SortKeys(q),
                q.skip, q.limit)
  }

  function OuterOf(q: Request, s: BoundSelect): BoundSelect {
    s.(orderings := SortKeys(q) + JoinKeys(q, s.joins), skip := None, limit := None)
  }

  function AggregateOf(q: Request, s: BoundSelect): BoundSelect {
    s.(orderings := AggregateKeys(q))
  }

  lemma SelectAligned(q: Request, plan: seq<BoundJoin>, root: Emitted)
    requires AllFit(plan) && !root.Fails? && (root.Emit? ==> |root.parameters| == Holes(root.condition))
    ensures var ps, meant := ParametersOf(plan, root), Intention(q, plan, root);
            |ps| == SelectHoles(SubSelect(q, plan, root)) && BindSelect(SubSelect(q, plan, root), ps) == meant &&
            |ps| == SelectHoles(OuterSelect(q, plan, root)) &&
            BindSelect(OuterSelect(q, plan, root), ps) == OuterOf(q, meant) &&
            |ps| == SelectHoles(AggregateSelect(q, plan, root)) &&
            BindSelect(AggregateSelect(q, plan, root), ps) == AggregateOf(q, meant)
  {
    BindingUndoesCollecting(plan);
    var ps := ParametersOf(plan, root);
    assert ps[..|ArgsIn(plan)|] == ArgsIn(plan);
  }

  predicate RootWellFormed(q: Request) {
    q.root.filter.Some? ==>
      WellFormed(q.root.filter.value) &&
      var plan := PlanEdges(q.root.edges, RootPath(q));
      plan.Plan? && AllPlaced(q.root.filter.value, RootPath(q), Some({RootPath(q)} + Paths(plan.joins)))
  }

  lemma PlanningSucceeds(q: Request)
    requires WellFormedEdges(q.root.edges) && RootWellFormed(q)
    ensures var (plan, root) := Planning(q);
            plan.Plan? && !root.Fails? && AllFit(plan.joins) && Ordered(plan.joins, {RootPath(q)}) &&
            (root.Emit? ==> |root.parameters| == Holes(root.condition))
  {
    PlanEdgesShape(q.root.edges, RootPath(q), {RootPath(q)});
    if q.root.filter.Some? {
      var (plan, root) := Planning(q);
      EmittedMeaning(q.root.filter.value, RootPath(q), Some({RootPath(q)} + Paths(plan.joins)),
                     Collation((a, b) => false, (a, b) => false), (c: Column) => Null);
    }
  }

  /** Planned joins come with one parameter per `?`, whatever their filters. */
  lemma {:induction false} PlannedFit(edges: seq<Edge>, path: Path)
    requires PlanEdges(edges, path).Plan?
    ensures AllFit(PlanEdges(edges, path).joins)
    decreases edges
  {
    if edges != [] {
      var e, at := edges[0], path + [edges[0].field];
      if e.node.filter.Some? {
        CompileHoles(e.node.filter.value, at, None);
      }
      PlannedFit(e.node.edges, at);
      PlannedFit(edges[1..], path);
    }
  }

  lemma TextAligned(q: Request, plan: seq<BoundJoin>, root: Emitted)
    requires AllFit(plan) && !root.Fails? && (root.Emit? ==> |root.parameters| == Holes(root.condition))
    ensures var ps, meant := ParametersOf(plan, root), Intention(q, plan, root);
            var single := Aggregate(AggregateSelect(q, plan, root));
            var paged := Paged(SubSelect(q, plan, root), OuterSelect(q, plan, root));
            |ps| == TextHoles(single) && BindText(single, ps) == [AggregateOf(q, meant)] &&
            |ps + ps| == TextHoles(paged) && BindText(paged, ps + ps) == [meant, OuterOf(q, meant)]
  {
    SelectAligned(q, plan, root);
    var ps := ParametersOf(plan, root);
    assert (ps + ps)[..|ps|] == ps && (ps + ps)[|ps|..] == ps;
  }

  lemma PlannedAligned(q: Request)
    requires !Planning(q).1.Fails?
    ensures var (plan, root) := Planning(q);
            plan.Plan? && AllFit(plan.joins) && (root.Emit? ==> |root.parameters| == Holes(root.condition))
  {
    PlannedFit(q.root.edges, RootPath(q));
    if q.root.filter.Some? {
      CompileHoles(q.root.filter.value, RootPath(q),
                   Some({RootPath(q)} + Paths(PlanEdges(q.root.edges, RootPath(q)).joins)));
    }
  }

  /**
   Positional alignment, for every request that compiles: the collected list has one entry per `?` of the whole text,
   and binding it in text order gives every condition of both SELECTs exactly the parameters compiled for it.
   */
  lemma Aligned(q: Request)
    requires CompileRequest(q).Compiled?
    ensures var c := CompileRequest(q); var (plan, root) := Planning(q);
            plan.Plan? && !root.Fails? && |c.parameters| == TextHoles(c.text) &&
            var meant := Intention(q, plan.joins, root);
            BindText(c.text, c.parameters) ==
              if q.aggregate then [AggregateOf(q, meant)] else [meant, OuterOf(q, meant)]
  {
    PlannedAligned(q);
    TextAligned(q, Planning(q).0.joins, Planning(q).1);
  }

  /** The two SELECTs of a request differ in nothing but the page, which the inner one has, and the keys behind. */
  lemma OnlyTheSubSelectIsPaged(q: Request)
    requires CompileRequest(q).Compiled? && !q.aggregate
    ensures CompileRequest(q).text.Paged?
    ensures var sub, outer := CompileRequest(q).text.sub, CompileRequest(q).text.outer;
            sub.skip == q.skip && sub.limit == q.limit && outer.skip.None? && outer.limit.None? &&
            sub.orderings <= outer.orderings &&
            outer.(orderings := sub.orderings, skip := q.skip, limit := q.limit) == sub
  {
  }

  /**
   An aggregate is paged itself, and sorted by the requested field, in the requested direction, unless that is none or
   the key.
   */
  lemma AggregateOrder(q: Request, k: OrderKey)
    requires CompileRequest(q).Compiled? && q.aggregate
    ensures CompileRequest(q).text.Aggregate? && |CompileRequest(q).text.select.orderings| <= 1
    ensures CompileRequest(q).text.select.skip == q.skip && CompileRequest(q).text.select.limit == q.limit
    ensures k in CompileRequest(q).text.select.orderings <==>
              q.sort.field.Some? && q.sort.field.value != q.root.key &&
              k == OrderKey(Column([q.root.table], q.sort.field.value), q.sort.descending)
  {
    var (plan, root) := Planning(q);
    assert CompileRequest(q).text.select == AggregateSelect(q, plan.joins, root);
  }

  // ---------------------------------------------------------------- executing the paged query

  function BaseRow(from: string, x: Row): JoinedRow {
    map[[from] := Some(x)]
  }

  function BaseRows(from: string, xs: seq<Row>): seq<JoinedRow> {
    Map(xs, (x: Row) => BaseRow(from, x))
  }

  function RootRow(q: Request, x: Row): JoinedRow {
    BaseRow(q.root.table, x)
  }

  function RootRows(q: Request, xs: seq<Row>): seq<JoinedRow> {
    BaseRows(q.root.table, xs)
  }

  predicate Fitting(s: BoundSelect) {
    AllFit(s.joins) && |s.args| == FilterHoles(s.where_)
  }

  /** A joined row of a SELECT over these root rows that meets its WHERE clause. */
  ghost predicate Kept(db: Database, s: BoundSelect, xs: seq<Row>, j: JoinedRow)
    requires Fitting(s)
  {
    j in JoinAll(db, BaseRows(s.from, xs), s.joins) && FilterHolds(db, s.where_, s.args, EnvOf(j))
  }

  ghost predicate Keeps(db: Database, s: BoundSelect, x: Row)
    requires Fitting(s)
  {
    exists j :: Kept(db, s, RowsOf(db, s.from), j) && [s.from] in j && j[[s.from]] == Some(x)
  }

  /** SELECT DISTINCT root.* ... ORDER BY: the distinct root rows that are kept, sorted. */
  ghost predicate SelectsRoots(db: Database, s: BoundSelect, xs: seq<Row>)
    requires Fitting(s)
  {
    Distinct(xs) && (forall x :: x in xs <==> Keeps(db, s, x)) &&
    Sorted(db.collation, s.orderings, BaseRows(s.from, xs))
  }

  function ResultRows(labels: map<string, Column>, js: seq<JoinedRow>): seq<map<string, Value>> {
    Map(js, (j: JoinedRow) => Project(labels, j))
  }

  /**
   SELECT DISTINCT of labelled columns, ORDER BY some of them: every row shows a kept joined row, the labelled columns
   of every kept row are shown by some row, and the rows are sorted.
   */
  ghost predicate SelectsRows(
      db: Database, s: BoundSelect, page: seq<Row>, labels: map<string, Column>, js: seq<JoinedRow>)
    requires Fitting(s)
  {
    OrdersSelected(s.orderings, labels) && (forall j :: j in js ==> Kept(db, s, page, j)) &&
    (forall j :: Kept(db, s, page, j) ==> Project(labels, j) in ResultRows(labels, js)) &&
    Sorted(db.collation, s.orderings, js)
  }

  /** The page a request asks for. */
  function PageOf(q: Request, xs: seq<Row>): seq<Row> {
    Slice(xs, q.skip, q.limit)
  }

  /** A sub-select of the request: its root table, its order, its page. */
  predicate Sub(q: Request, s: BoundSelect) {
    Fitting(s) && Ordered(s.joins, {RootPath(q)}) &&
    s.from == q.root.table && s.orderings == SortKeys(q) && s.skip == q.skip && s.limit == q.limit
  }

  /** What the database answers: the sorted roots, and the rows of the outer SELECT over their page. */
  ghost predicate PageAnswered(
    db: Database, q: Request, s: BoundSelect, xs: seq<Row>, labels: map<string, Column>, js: seq<JoinedRow>)
  {
    Sub(q, s) && SelectsRoots(db, s, xs) && SelectsRows(db, OuterOf(q, s), PageOf(q, xs), labels, js)
  }

  predicate UniqueKeys(db: Database, n: Node) {
    (forall x :: x in RowsOf(db, n.table) ==> Col(x, n.key).Val?) &&
    (forall x, y :: x in RowsOf(db, n.table) && y in RowsOf(db, n.table) && Col(x, n.key) == Col(y, n.key) ==> x == y)
  }

  /** Some label shows the root's primary key. */
  predicate ShowsRootKey(q: Request, labels: map<string, Column>) {
    Column(RootPath(q), RootId(q)) in labels.Values
  }

  // ---------------------------------------------------------------- a join works root by root

  lemma {:induction false} JoinAllByRoot(db: Database, rows: seq<JoinedRow>, bs: seq<BoundJoin>, j: JoinedRow)
    requires AllFit(bs)
    ensures j in JoinAll(db, rows, bs) <==> exists i :: i in rows && j in JoinAll(db, [i], bs)
    decreases bs
  {
    if bs == [] {
      assert forall i :: i in rows && j in JoinAll(db, [i], []) ==> i == j;
      assert j in JoinAll(db, [j], []);
    } else {
      var b := bs[0];
      JoinAllByRoot(db, Step(db, rows, b), bs[1..], j);
      forall i: JoinedRow
        ensures j in JoinAll(db, [i], bs) <==> exists m :: m in Step(db, [i], b) && j in JoinAll(db, [m], bs[1..])
      {
        JoinAllByRoot(db, Step(db, [i], b), bs[1..], j);
      }
      forall m: JoinedRow
        ensures m in Step(db, rows, b) <==> exists i :: i in rows && m in Step(db, [i], b)
      {
        StepMember(db, rows, b, m);
        forall i: JoinedRow
          ensures m in Step(db, [i], b) <==> exists o :: o in Extensions(db, b, i) && m == i[b.join.path := o]
        {
          StepMember(db, [i], b, m);
          assert i in [i];
        }
      }
    }
  }

  lemma RootShown(db: Database, q: Request, s: BoundSelect, x: Row, j: JoinedRow)
    requires Sub(q, s) && j in JoinAll(db, [RootRow(q, x)], s.joins)
    ensures RootPath(q) in j && j[RootPath(q)] == Some(x)
  {
    var i := JoinAllStems(db, [RootRow(q, x)], s.joins, {RootPath(q)}, j);
  }

  /** What a SELECT keeps for a page is what it keeps for all roots, restricted to roots of the page. */
  lemma KeptByRoot(db: Database, q: Request, s: BoundSelect, xs: seq<Row>, j: JoinedRow)
    requires Sub(q, s)
    ensures Kept(db, s, xs, j) <==>
              RootPath(q) in j && j[RootPath(q)].Some? && j[RootPath(q)].value in xs &&
              Kept(db, s, [j[RootPath(q)].value], j)
  {
    if Kept(db, s, xs, j) {
      var x := StemsFromRoot(db, q, s, xs, j);
    } else if RootPath(q) in j && j[RootPath(q)].Some? && j[RootPath(q)].value in xs {
      var x: Row := j[RootPath(q)].value;
      JoinAllByRoot(db, RootRows(q, xs), s.joins, j);
      RootRowsMembers(q, xs, RootRow(q, x));
      assert RootRows(q, [x]) == [RootRow(q, x)];
    }
  }

  lemma RootOfRow(q: Request, xs: seq<Row>, i: JoinedRow) returns (x: Row)
    requires i in RootRows(q, xs)
    ensures x in xs && i == RootRow(q, x) && RootRows(q, [x]) == [i]
  {
    RootRowsMembers(q, xs, i);
    x :| x in xs && i == RootRow(q, x);
  }

  /** A joined row over root rows is a joined row of one of them. */
  lemma StemsFromRoot(db: Database, q: Request, s: BoundSelect, xs: seq<Row>, j: JoinedRow) returns (x: Row)
    requires Sub(q, s) && j in JoinAll(db, RootRows(q, xs), s.joins)
    ensures x in xs && RootPath(q) in j && j[RootPath(q)] == Some(x) && j in JoinAll(db, RootRows(q, [x]), s.joins)
  {
    JoinAllByRoot(db, RootRows(q, xs), s.joins, j);
    var i :| i in RootRows(q, xs) && j in JoinAll(db, [i], s.joins);
    x := RootOfRow(q, xs, i);
    RootShown(db, q, s, x, j);
  }

  function RootOf(q: Request, j: JoinedRow): Row {
    if RootPath(q) in j && j[RootPath(q)].Some? then j[RootPath(q)].value else map[]
  }

  lemma SameLabelsSameRoot(
      db: Database, q: Request, labels: map<string, Column>, i: JoinedRow, j: JoinedRow)
    requires UniqueKeys(db, q.root) && ShowsRootKey(q, labels) && Project(labels, i) == Project(labels, j)
    requires RootPath(q) in i && i[RootPath(q)].Some? && i[RootPath(q)].value in RowsOf(db, q.root.table)
    requires RootPath(q) in j && j[RootPath(q)].Some? && j[RootPath(q)].value in RowsOf(db, q.root.table)
    ensures i[RootPath(q)] == j[RootPath(q)]
  {
    var l :| l in labels && labels[l] == Column(RootPath(q), RootId(q));
    assert Project(labels, i)[l] == Project(labels, j)[l];
  }

  /** A kept joined row shows a root of the page. */
  lemma KeptShowsPage(db: Database, q: Request, s: BoundSelect, xs: seq<Row>, j: JoinedRow)
    requires Sub(q, s) && SelectsRoots(db, s, xs)
    requires Kept(db, s, PageOf(q, xs), j)
    ensures RootPath(q) in j && j[RootPath(q)].Some?
    ensures RootOf(q, j) in PageOf(q, xs) && RootOf(q, j) in RowsOf(db, q.root.table)
  {
    KeptByRoot(db, q, s, PageOf(q, xs), j);
    RootIsKept(db, q, s, xs, RootOf(q, j));
  }

  /** Every root of the page has a kept joined row. */
  lemma PageIsKept(db: Database, q: Request, s: BoundSelect, xs: seq<Row>, x: Row) returns (j: JoinedRow)
    requires Sub(q, s) && SelectsRoots(db, s, xs) && x in PageOf(q, xs)
    ensures Kept(db, s, PageOf(q, xs), j) && RootPath(q) in j && j[RootPath(q)] == Some(x)
  {
    RootIsKept(db, q, s, xs, x);
    j :| Kept(db, s, RowsOf(db, q.root.table), j) && RootPath(q) in j && j[RootPath(q)] == Some(x);
    KeptByRoot(db, q, s, RowsOf(db, q.root.table), j);
    KeptByRoot(db, q, s, PageOf(q, xs), j);
  }

  /** Joining and filtering again loses no root of the page and adds none, whatever tables the filter refers to. */
  lemma PageIsShown(
      db: Database, q: Request, s: BoundSelect, xs: seq<Row>, labels: map<string, Column>, js: seq<JoinedRow>, x: Row)
    requires PageAnswered(db, q, s, xs, labels, js) && UniqueKeys(db, q.root) && ShowsRootKey(q, labels)
    ensures x in PageOf(q, xs) <==> exists j :: j in js && RootOf(q, j) == x
  {
    if x in PageOf(q, xs) {
      var j := PageIsKept(db, q, s, xs, x);
      var i := ShownLike(db, q, s, PageOf(q, xs), labels, js, j);
      KeptShowsPage(db, q, s, xs, i);
      RootIsKept(db, q, s, xs, x);
      SameLabelsSameRoot(db, q, labels, i, j);
      assert RootOf(q, i) == x;
    } else {
      forall j | j in js
        ensures RootOf(q, j) != x
      {
        KeptShowsPage(db, q, s, xs, j);
      }
    }
  }

  lemma ShownLike(
      db: Database, q: Request, s: BoundSelect, page: seq<Row>, labels: map<string, Column>, js: seq<JoinedRow>,
      j: JoinedRow) returns (i: JoinedRow)
    requires Fitting(s) && SelectsRows(db, OuterOf(q, s), page, labels, js) && Kept(db, s, page, j)
    ensures i in js && Kept(db, s, page, i) && Project(labels, i) == Project(labels, j)
  {
    assert Kept(db, OuterOf(q, s), page, j);
    var k :| 0 <= k < |js| && ResultRows(labels, js)[k] == Project(labels, j);
    i := js[k];
    assert Kept(db, OuterOf(q, s), page, i);
  }

  lemma RootIsKept(db: Database, q: Request, s: BoundSelect, xs: seq<Row>, x: Row)
    requires Sub(q, s) && SelectsRoots(db, s, xs) && x in PageOf(q, xs)
    ensures x in xs && Keeps(db, s, x) && x in RowsOf(db, q.root.table)
  {
    assert x in xs;
    var j :| Kept(db, s, RowsOf(db, q.root.table), j) && RootPath(q) in j && j[RootPath(q)] == Some(x);
    KeptByRoot(db, q, s, RowsOf(db, q.root.table), j);
  }

  lemma RowsShowRoots(
      db: Database, q: Request, s: BoundSelect, xs: seq<Row>, labels: map<string, Column>, js: seq<JoinedRow>)
    requires PageAnswered(db, q, s, xs, labels, js)
    ensures forall j: JoinedRow :: j in js ==>
              RootPath(q) in j && j[RootPath(q)].Some? && RootOf(q, j) in RowsOf(db, q.root.table)
  {
    forall j: JoinedRow | j in js
      ensures RootPath(q) in j && j[RootPath(q)].Some? && RootOf(q, j) in RowsOf(db, q.root.table)
    {
      KeptShowsPage(db, q, s, xs, j);
    }
  }

  lemma RootRowsMembers(q: Request, xs: seq<Row>, j: JoinedRow)
    ensures j in RootRows(q, xs) <==> exists x :: x in xs && j == RootRow(q, x)
  {
    var rows := RootRows(q, xs);
    assert forall i :: 0 <= i < |xs| ==> rows[i] == RootRow(q, xs[i]);
    if x :| x in xs && j == RootRow(q, x) {
      var i :| 0 <= i < |xs| && xs[i] == x;
      assert rows[i] == j;
    }
    if j in rows {
      var i :| 0 <= i < |rows| && rows[i] == j;
      assert xs[i] in xs;
    }
  }

  lemma RootRowsInjective(q: Request, xs: seq<Row>, ys: seq<Row>)
    requires RootRows(q, xs) == RootRows(q, ys)
    ensures xs == ys
  {
    assert |xs| == |RootRows(q, xs)| == |ys|;
    forall i | 0 <= i < |xs|
      ensures xs[i] == ys[i]
    {
      assert RootRows(q, xs)[i] == RootRow(q, xs[i]) && RootRows(q, ys)[i] == RootRow(q, ys[i]);
      assert RootRow(q, xs[i])[RootPath(q)] == RootRow(q, ys[i])[RootPath(q)];
    }
  }
}
