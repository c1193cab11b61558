/**
 The filter compiler. A filter set is a tree; the compiler turns it into a SQL condition with positional
 `?` markers while it collects the parameters in a second place. Batch mode collects them again by an
 independent traversal.
 */
module Filters {
  import opened Truth

  // ---------------------------------------------------------------- the filter tree

  /** A table of the query, named by the field path that leads to it from the root type. */
  type Path = seq<string>

  datatype Comparison = EQ | NE | LT | LE | GT | GE | LIKE | IN

  datatype FieldType =
    | TString | TLong | TInt | TID | TFloat | TBoolean | TShort | TByte | TTimestamp | TDate | TTime | TOther

  datatype Operand = One(v: Value) | Many(vs: seq<Value>)

  datatype Filter = Filter(
    path: Path, fieldName: string, fieldType: FieldType, op: Comparison, value: Operand, negation: bool)

  datatype FilterList = NoFilters | Filters(list: seq<Filter>)
  datatype SetList = NoSets | Sets(list: seq<FilterSet>)

  datatype FilterSet = FilterSet(filters: FilterList, filtersets: SetList, op: Option<Connective>, negation: bool)

  // ---------------------------------------------------------------- SQL conditions

  datatype Column = Column(table: Path, field: string)

  datatype SqlOp =
    EqualTo | NotEqualTo | LessThan | LessThanOrEqualTo | GreaterThan | GreaterThanOrEqualTo | SqlLike

  /** A printed condition: every `Binary` prints one `?`, every `In` prints `holes` of them. */
  datatype Condition =
    | Binary(op: SqlOp, column: Column)
    | In(column: Column, holes: nat, negate: bool)
    | Not(condition: Condition)
    | Combo(connective: Connective, conditions: seq<Condition>)

  type Env = Column -> Value

  function Holes(c: Condition): nat {
    match c
    case Binary(_, _) => 1
    case In(_, n, _) => n
    case Not(d) => Holes(d)
    case Combo(_, cs) => HolesAll(cs)
  }

  function HolesAll(cs: seq<Condition>): nat {
    if cs == [] then 0 else Holes(cs[0]) + HolesAll(cs[1..])
  }

  /** The columns a condition names. */
  function NamedIn(c: Condition): set<Column> {
    match c
    case Binary(_, column) => {column}
    case In(column, _, _) => {column}
    case Not(d) => NamedIn(d)
    case Combo(_, cs) => NamedInAll(cs)
  }

  function NamedInAll(cs: seq<Condition>): set<Column> {
    if cs == [] then {} else NamedIn(cs[0]) + NamedInAll(cs[1..])
  }

  function SqlRelation(co: Collation, op: SqlOp, a: string, b: string): bool {
    match op
    case EqualTo => a == b
    case NotEqualTo => a != b
    case LessThan => co.less(a, b)
    case LessThanOrEqualTo => co.less(a, b) || a == b
    case GreaterThan => co.less(b, a)
    case GreaterThanOrEqualTo => co.less(b, a) || a == b
    case SqlLike => co.like(a, b)
  }

  /** A list bound to a single `?` compares with nothing. */
  function SqlCompare(co: Collation, op: SqlOp, a: Value, p: Operand): Truth {
    if p.Many? || p.v.Null? || a.Null? then Unknown else Truly(SqlRelation(co, op, a.text, p.v.text))
  }

  function Scalars(ps: seq<Operand>): seq<Value> {
    seq(|ps|, i requires 0 <= i < |ps| => if ps[i].One? then ps[i].v else Null)
  }

  /** What the database computes: the i-th `?` of the printed text reads the i-th parameter. */
  function Eval(c: Condition, co: Collation, env: Env, ps: seq<Operand>): Truth
    requires |ps| == Holes(c)
    decreases c
  {
    match c
    case Binary(op, column) => SqlCompare(co, op, env(column), ps[0])
    case In(column, _, negate) =>
      var t := AnyEqual(env(column), Scalars(ps));
      if negate then Not3(t) else t
    case Not(d) => Not3(Eval(d, co, env, ps))
    case Combo(op, cs) => EvalAll(op, cs, co, env, ps)
  }

  function EvalAll(op: Connective, cs: seq<Condition>, co: Collation, env: Env, ps: seq<Operand>): Truth
    requires |ps| == HolesAll(cs)
    decreases cs
  {
    if cs == [] then Truly(op.And?)
    else
      var h := Holes(cs[0]);
      Connect(op, Eval(cs[0], co, env, ps[..h]), EvalAll(op, cs[1..], co, env, ps[h..]))
  }

  // ---------------------------------------------------------------- what a filter tree means

  function Relation(co: Collation, op: Comparison, a: string, b: string): bool {
    match op
    case EQ => a == b
    case NE => a != b
    case LT => co.less(a, b)
    case LE => co.less(a, b) || a == b
    case GT => co.less(b, a)
    case GE => co.less(b, a) || a == b
    case LIKE => co.like(a, b)
    case IN => a == b
  }

  /** The column a filter names: a dotted name walks from the filtered table along the joins. */
  function Intended(f: Filter, table: Path): Column {
    Column(if |f.path| <= 1 then table else table + f.path[1..], f.fieldName)
  }

  function FilterMeaning(f: Filter, table: Path, co: Collation, env: Env): Truth {
    var a := env(Intended(f, table));
    var t := match f.value
      case One(v) => if a.Null? || v.Null? then Unknown else Truly(Relation(co, f.op, a.text, v.text))
      case Many(vs) => AnyEqual(a, vs);
    if f.negation then Not3(t) else t
  }

  function FilterMeanings(fs: seq<Filter>, table: Path, co: Collation, env: Env): seq<Truth> {
    seq(|fs|, i requires 0 <= i < |fs| => FilterMeaning(fs[i], table, co, env))
  }

  /** The members of a set joined by its operator (a lone member needs none), then negated if asked. */
  function Meaning(s: FilterSet, table: Path, co: Collation, env: Env): Truth {
    var members :=
      if s.filters.Filters? then FilterMeanings(s.filters.list, table, co, env)
      else if s.filtersets.Sets? then Meanings(s.filtersets.list, table, co, env)
      else [];
    var t := if s.op.Some? then Fold(s.op.value, members) else if members == [] then Yes else members[0];
    if s.negation then Not3(t) else t
  }

  function Meanings(ss: seq<FilterSet>, table: Path, co: Collation, env: Env): (r: seq<Truth>)
    ensures |r| == |ss|
  {
    if ss == [] then [] else [Meaning(ss[0], table, co, env)] + Meanings(ss[1..], table, co, env)
  }

  // ---------------------------------------------------------------- well-formed trees

  /** A list stands exactly under IN, and is not empty. */
  predicate GoodFilter(f: Filter) {
    (f.op.IN? <==> f.value.Many?) && (f.value.Many? ==> f.value.vs != [])
  }

  predicate GoodFilters(fs: seq<Filter>) {
    forall f :: f in fs ==> GoodFilter(f)
  }

  /** One of the two lists, not empty, with an operator when it has several members. */
  predicate WellFormed(s: FilterSet) {
    if s.filters.Filters? then
      s.filtersets.NoSets? && s.filters.list != [] && (|s.filters.list| > 1 ==> s.op.Some?) &&
      GoodFilters(s.filters.list)
    else
      s.filtersets.Sets? && s.filtersets.list != [] && (|s.filtersets.list| > 1 ==> s.op.Some?) &&
      AllWellFormed(s.filtersets.list)
  }

  predicate AllWellFormed(ss: seq<FilterSet>) {
    ss == [] || (WellFormed(ss[0]) && AllWellFormed(ss[1..]))
  }

  // Every filter of the tree satisfies p.
  predicate ForFilters(s: FilterSet, p: Filter -> bool) {
    (s.filters.Filters? ==> forall f :: f in s.filters.list ==> p(f)) &&
    (s.filtersets.Sets? ==> ForAllFilters(s.filtersets.list, p))
  }

  predicate ForAllFilters(ss: seq<FilterSet>, p: Filter -> bool) {
    ss == [] || (ForFilters(ss[0], p) && ForAllFilters(ss[1..], p))
  }

  // ---------------------------------------------------------------- reading and validating a tree

  datatype Error =
    BothLists | NeitherList | MissingOperator | IndexOutOfBounds | NullCondition | UnknownPath | UnsupportedType

  datatype Validated = Valid(set_: FilterSet) | Invalid(error: Error)
  datatype ValidatedAll = ValidAll(sets: seq<FilterSet>) | InvalidAll(error: Error)

  /** The check made on every set right after its properties were read, innermost sets first. */
  function Validate(s: FilterSet): Validated {
    var inner := if s.filtersets.Sets? then ValidateAll(s.filtersets.list) else ValidAll([]);
    if inner.InvalidAll? then Invalid(inner.error)
    else
      var t := if s.filtersets.Sets? then s.(filtersets := Sets(inner.sets)) else s;
      if t.filters.Filters? && t.filtersets.Sets? then Invalid(BothLists)
      else if t.filters.NoFilters? && t.filtersets.NoSets? then Invalid(NeitherList)
      else if (t.filters.Filters? && |t.filters.list| > 1) || (t.filtersets.Sets? && |t.filtersets.list| > 1) then
        if t.op.None? then Invalid(MissingOperator) else Valid(t)
      else Valid(t.(op := None))
  }

  function ValidateAll(ss: seq<FilterSet>): ValidatedAll {
    if ss == [] then ValidAll([])
    else
      var first := Validate(ss[0]);
      if first.Invalid? then InvalidAll(first.error)
      else
        var rest := ValidateAll(ss[1..]);
        if rest.InvalidAll? then rest else ValidAll([first.set_] + rest.sets)
  }

  // No list of the tree is empty, and lists stand exactly under IN.
  predicate NoEmptyList(s: FilterSet) {
    (s.filters.Filters? ==> s.filters.list != [] && GoodFilters(s.filters.list)) &&
    (s.filtersets.Sets? ==> s.filtersets.list != [] && NoEmptyLists(s.filtersets.list))
  }

  predicate NoEmptyLists(ss: seq<FilterSet>) {
    ss == [] || (NoEmptyList(ss[0]) && NoEmptyLists(ss[1..]))
  }

  /** Whatever validation accepts is well formed, and an operator is kept exactly for several members. */
  lemma {:induction false} ValidatedIsWellFormed(s: FilterSet)
    requires NoEmptyList(s) && Validate(s).Valid?
    ensures WellFormed(Validate(s).set_)
    ensures Validate(s).set_.op.Some? <==>
              (s.filters.Filters? && |s.filters.list| > 1) || (s.filtersets.Sets? && |s.filtersets.list| > 1)
    decreases s
  {
    if s.filtersets.Sets? {
      ValidatedAllAreWellFormed(s.filtersets.list);
    }
  }

  lemma {:induction false} ValidatedAllAreWellFormed(ss: seq<FilterSet>)
    requires NoEmptyLists(ss) && ValidateAll(ss).ValidAll?
    ensures AllWellFormed(ValidateAll(ss).sets) && |ValidateAll(ss).sets| == |ss|
    decreases ss
  {
    if ss != [] {
      ValidatedIsWellFormed(ss[0]);
      ValidatedAllAreWellFormed(ss[1..]);
    }
  }

  // ---------------------------------------------------------------- the compiler, as a function

  datatype Emitted =
    | NoCondition
    | Emit(condition: Condition, parameters: seq<Operand>)
    | Fails(error: Error)

  datatype EmittedAll = EmitAll(conditions: seq<Condition>, parameters: seq<Operand>) | FailsAll(error: Error)

  function ToRDBMSComparison(op: Comparison): SqlOp
    requires !op.IN?
  {
    match op
    case EQ => EqualTo
    case NE => NotEqualTo
    case GE => GreaterThanOrEqualTo
    case GT => GreaterThan
    case LE => LessThanOrEqualTo
    case LT => LessThan
    case LIKE => SqlLike
  }

  /** The table a column is put on: the aliased join of the filter's path when aliases are at hand. */
  function TableOf(f: Filter, table: Path, aliases: Option<set<Path>>): Path {
    if aliases.Some? && f.path != [] then f.path else table
  }

  function AsOperands(vs: seq<Value>): seq<Operand> {
    seq(|vs|, i requires 0 <= i < |vs| => One(vs[i]))
  }

  function CompileFilter(f: Filter, table: Path, aliases: Option<set<Path>>): (r: Emitted)
    ensures r.Emit? || r == Fails(UnknownPath)
  {
    var column := Column(TableOf(f, table, aliases), f.fieldName);
    if aliases.Some? && f.path != [] && f.path !in aliases.value then Fails(UnknownPath)
    else if f.op.IN? then
      var vs := if f.value.Many? then f.value.vs else [];
      Emit(In(column, |vs|, f.negation), AsOperands(vs))
    else
      var binary := Binary(ToRDBMSComparison(f.op), column);
      Emit(if f.negation then Not(binary) else binary, [f.value])
  }

  function CompileFilters(fs: seq<Filter>, table: Path, aliases: Option<set<Path>>): EmittedAll {
    if fs == [] then EmitAll([], [])
    else Prepend(CompileFilter(fs[0], table, aliases), CompileFilters(fs[1..], table, aliases))
  }

  function Prepend(first: Emitted, rest: EmittedAll): EmittedAll {
    match first
    case NoCondition => FailsAll(NullCondition)
    case Fails(e) => FailsAll(e)
    case Emit(c, ps) =>
      if rest.FailsAll? then rest else EmitAll([c] + rest.conditions, ps + rest.parameters)
  }

  function Combine(op: Connective, negation: bool, all: EmittedAll): Emitted {
    if all.FailsAll? then Fails(all.error)
    else
      var combo := Combo(op, all.conditions);
      Emit(if negation then Not(combo) else combo, all.parameters)
  }

  /** Without an operator only the first member is compiled, and the set's own `not` is never reached. */
  function Compile(s: FilterSet, table: Path, aliases: Option<set<Path>>): Emitted {
    if s.filters.Filters? then
      if s.op.Some? then Combine(s.op.value, s.negation, CompileFilters(s.filters.list, table, aliases))
      else if s.filters.list == [] then Fails(IndexOutOfBounds)
      else CompileFilter(s.filters.list[0], table, aliases)
    else if s.filtersets.NoSets? then Fails(NeitherList)
    else if s.op.Some? then Combine(s.op.value, s.negation, CompileAll(s.filtersets.list, table, aliases))
    else if s.filtersets.list == [] then
      if s.negation then Fails(NullCondition) else NoCondition
    else Compile(s.filtersets.list[0], table, aliases)
  }

  function CompileAll(ss: seq<FilterSet>, table: Path, aliases: Option<set<Path>>): EmittedAll {
    if ss == [] then EmitAll([], [])
    else Prepend(Compile(ss[0], table, aliases), CompileAll(ss[1..], table, aliases))
  }
}
