/** The two traversals as they run: compiling with parameters as a side effect, and binding afterwards. */
module FilterParser {
  import opened Truth
  import opened Filters
  import opened FilterLaws

  /** The query under construction collects parameters while its text is put together. */
  class SqlQuery {
    var parameters: seq<Operand>

    constructor ()
      ensures parameters == []
    {
      parameters := [];
    }

    method AddParameter(p: Operand)
      modifies this
      ensures parameters == old(parameters) + [p]
    {
      parameters := parameters + [p];
    }
  }

  method GetBinaryOrInCondition(f: Filter, table: Path, aliases: Option<set<Path>>, sqlQuery: SqlQuery?)
    returns (r: Emitted)
    modifies sqlQuery
    ensures r == CompileFilter(f, table, aliases)
    ensures sqlQuery != null && r.Emit? ==> sqlQuery.parameters == old(sqlQuery.parameters) + r.parameters
  {
    if aliases.Some? && f.path != [] && f.path !in aliases.value {
      return Fails(UnknownPath);
    }
    var column := Column(TableOf(f, table, aliases), f.fieldName);
    if f.op.IN? {
      var holes := 0;
      if f.value.Many? {
        for i := 0 to |f.value.vs|
          invariant holes == i
          invariant sqlQuery != null ==>
                      sqlQuery.parameters == old(sqlQuery.parameters) + AsOperands(f.value.vs[..i])
        {
          holes := holes + 1;
          if sqlQuery != null {
            sqlQuery.AddParameter(One(f.value.vs[i]));
            assert AsOperands(f.value.vs[..i]) + [One(f.value.vs[i])] == AsOperands(f.value.vs[..i + 1]);
          }
        }
        assert f.value.vs[..|f.value.vs|] == f.value.vs;
      }
      return Emit(In(column, holes, f.negation), AsOperands(if f.value.Many? then f.value.vs else []));
    }
    var condition := Binary(ToRDBMSComparison(f.op), column);
    if sqlQuery != null {
      sqlQuery.AddParameter(f.value);
    }
    if f.negation {
      condition := Not(condition);
    }
    return Emit(condition, [f.value]);
  }

  lemma {:induction false} FiltersSnoc(fs: seq<Filter>, f: Filter, table: Path, aliases: Option<set<Path>>)
    ensures CompileFilters(fs + [f], table, aliases) ==
              Append(CompileFilters(fs, table, aliases), CompileFilter(f, table, aliases))
  {
    if fs != [] {
      assert (fs + [f])[1..] == fs[1..] + [f];
      FiltersSnoc(fs[1..], f, table, aliases);
    } else {
      assert [f][1..] == [];
    }
  }

  lemma {:induction false} SetsSnoc(ss: seq<FilterSet>, s: FilterSet, table: Path, aliases: Option<set<Path>>)
    ensures CompileAll(ss + [s], table, aliases) ==
              Append(CompileAll(ss, table, aliases), Compile(s, table, aliases))
  {
    if ss != [] {
      assert (ss + [s])[1..] == ss[1..] + [s];
      SetsSnoc(ss[1..], s, table, aliases);
    } else {
      assert [s][1..] == [];
    }
  }

  function Append(all: EmittedAll, last: Emitted): EmittedAll {
    if all.FailsAll? then all
    else match last
      case NoCondition => FailsAll(NullCondition)
      case Fails(e) => FailsAll(e)
      case Emit(c, ps) => EmitAll(all.conditions + [c], all.parameters + ps)
  }

  lemma {:induction false} FailureStays(fs: seq<Filter>, n: nat, table: Path, aliases: Option<set<Path>>)
    requires n <= |fs| && CompileFilters(fs[..n], table, aliases).FailsAll?
    ensures CompileFilters(fs, table, aliases) == CompileFilters(fs[..n], table, aliases)
    decreases |fs| - n
  {
    if n < |fs| {
      assert fs[..n + 1] == fs[..n] + [fs[n]];
      FiltersSnoc(fs[..n], fs[n], table, aliases);
      FailureStays(fs, n + 1, table, aliases);
    } else {
      assert fs[..n] == fs;
    }
  }

  lemma {:induction false} SetFailureStays(ss: seq<FilterSet>, n: nat, table: Path, aliases: Option<set<Path>>)
    requires n <= |ss| && CompileAll(ss[..n], table, aliases).FailsAll?
    ensures CompileAll(ss, table, aliases) == CompileAll(ss[..n], table, aliases)
    decreases |ss| - n
  {
    if n < |ss| {
      assert ss[..n + 1] == ss[..n] + [ss[n]];
      SetsSnoc(ss[..n], ss[n], table, aliases);
      SetFailureStays(ss, n + 1, table, aliases);
    } else {
      assert ss[..n] == ss;
    }
  }

  method AddFilters(fs: seq<Filter>, table: Path, aliases: Option<set<Path>>, sqlQuery: SqlQuery?)
    returns (r: EmittedAll)
    modifies sqlQuery
    ensures r == CompileFilters(fs, table, aliases)
    ensures sqlQuery != null && r.EmitAll? ==> sqlQuery.parameters == old(sqlQuery.parameters) + r.parameters
  {
    r := EmitAll([], []);
    for i := 0 to |fs|
      invariant r.EmitAll? && r == CompileFilters(fs[..i], table, aliases)
      invariant sqlQuery != null ==> sqlQuery.parameters == old(sqlQuery.parameters) + r.parameters
    {
      var e := GetBinaryOrInCondition(fs[i], table, aliases, sqlQuery);
      r := Append(r, e);
      assert fs[..i + 1] == fs[..i] + [fs[i]];
      FiltersSnoc(fs[..i], fs[i], table, aliases);
      if r.FailsAll? {
        FailureStays(fs, i + 1, table, aliases);
        return;
      }
    }
    assert fs[..|fs|] == fs;
  }

  method AddFilterSets(ss: seq<FilterSet>, table: Path, aliases: Option<set<Path>>, sqlQuery: SqlQuery?)
    returns (r: EmittedAll)
    modifies sqlQuery
    ensures r == CompileAll(ss, table, aliases)
    ensures sqlQuery != null && r.EmitAll? ==> sqlQuery.parameters == old(sqlQuery.parameters) + r.parameters
    decreases ss
  {
    r := EmitAll([], []);
    for i := 0 to |ss|
      invariant r.EmitAll? && r == CompileAll(ss[..i], table, aliases)
      invariant sqlQuery != null ==> sqlQuery.parameters == old(sqlQuery.parameters) + r.parameters
    {
      var member := ParseFilterSet(ss[i], table, aliases, sqlQuery);
      r := Append(r, member);
      assert ss[..i + 1] == ss[..i] + [ss[i]];
      SetsSnoc(ss[..i], ss[i], table, aliases);
      if r.FailsAll? {
        SetFailureStays(ss, i + 1, table, aliases);
        return;
      }
    }
    assert ss[..|ss|] == ss;
  }

  /** The compiler loop by loop: it returns what `Compile` says and appends exactly its parameters. */
  method ParseFilterSet(s: FilterSet, table: Path, aliases: Option<set<Path>>, sqlQuery: SqlQuery?)
    returns (r: Emitted)
    modifies sqlQuery
    ensures r == Compile(s, table, aliases)
    ensures sqlQuery != null && r.Emit? ==> sqlQuery.parameters == old(sqlQuery.parameters) + r.parameters
    ensures sqlQuery != null && r.NoCondition? ==> sqlQuery.parameters == old(sqlQuery.parameters)
    decreases s
  {
    if s.op.None? {
      if s.filters.Filters? {
        if s.filters.list == [] {
          return Fails(IndexOutOfBounds);
        }
        r := GetBinaryOrInCondition(s.filters.list[0], table, aliases, sqlQuery);
      } else if s.filtersets.NoSets? {
        r := Fails(NeitherList);
      } else if s.filtersets.list == [] {
        r := if s.negation then Fails(NullCondition) else NoCondition;
      } else {
        r := ParseFilterSet(s.filtersets.list[0], table, aliases, sqlQuery);
      }
      return;
    }
    var all;
    if s.filters.Filters? {
      all := AddFilters(s.filters.list, table, aliases, sqlQuery);
    } else if s.filtersets.NoSets? {
      return Fails(NeitherList);
    } else {
      all := AddFilterSets(s.filtersets.list, table, aliases, sqlQuery);
    }
    r := Combine(s.op.value, s.negation, all);
  }

  // ---------------------------------------------------------------- the second traversal of batch mode

  /** All filters of the tree, left to right. */
  function Flatten(s: FilterSet): seq<Filter> {
    if s.filters.Filters? then s.filters.list
    else if s.filtersets.Sets? then FlattenAll(s.filtersets.list)
    else []
  }

  function FlattenAll(ss: seq<FilterSet>): seq<Filter> {
    if ss == [] then [] else Flatten(ss[0]) + FlattenAll(ss[1..])
  }

  class FilterArrayList {
    var filters: seq<Filter>

    constructor ()
      ensures filters == []
    {
      filters := [];
    }

    method AddAll(fs: seq<Filter>)
      modifies this
      ensures filters == old(filters) + fs
    {
      filters := filters + fs;
    }
  }

  lemma {:induction false} FlattenSnoc(ss: seq<FilterSet>, s: FilterSet)
    ensures FlattenAll(ss + [s]) == FlattenAll(ss) + Flatten(s)
  {
    if ss != [] {
      assert (ss + [s])[1..] == ss[1..] + [s];
      FlattenSnoc(ss[1..], s);
    } else {
      assert [s][1..] == [];
    }
  }

  method PopulateFilterArrayList(out: FilterArrayList, s: FilterSet)
    modifies out
    ensures out.filters == old(out.filters) + Flatten(s)
    decreases s
  {
    if s.filters.Filters? {
      out.AddAll(s.filters.list);
    } else if s.filtersets.Sets? {
      var ss := s.filtersets.list;
      for i := 0 to |ss|
        invariant out.filters == old(out.filters) + FlattenAll(ss[..i])
      {
        PopulateFilterArrayList(out, ss[i]);
        assert ss[..i + 1] == ss[..i] + [ss[i]];
        FlattenSnoc(ss[..i], ss[i]);
      }
      assert ss[..|ss|] == ss;
    }
  }

  /** Which texts read as a value of a type: Long.parseLong, Double.parseDouble, Instant.parse and their like. */
  type Formats = (FieldType, string) -> bool

  /**
   The types the binder knows: more of them for one value than for a list. One value is read from its text, which may
   fail for every type but text and truth values; the elements of a list have their type already.
   */
  predicate Bindable(fm: Formats, f: Filter) {
    match f.value
    case One(v) =>
      !f.fieldType.TOther? && v.Val? && (f.fieldType.TString? || f.fieldType.TBoolean? || fm(f.fieldType, v.text))
    case Many(vs) =>
      f.fieldType.TString? || ((f.fieldType.TLong? || f.fieldType.TInt? || f.fieldType.TID? || f.fieldType.TFloat?) &&
                               Null !in vs)
  }

  function Bound(f: Filter): seq<Value> {
    match f.value
    case One(v) => [v]
    case Many(vs) => vs
  }

  function BoundAll(fs: seq<Filter>): seq<Value> {
    if fs == [] then [] else Bound(fs[0]) + BoundAll(fs[1..])
  }

  /** The slots of a statement, numbered from 1 as in JDBC. */
  function Slots(vs: seq<Value>): map<nat, Value> {
    map i: nat | 1 <= i <= |vs| :: Slot(vs, i)
  }

  function Slot(vs: seq<Value>, i: nat): Value
    requires 1 <= i <= |vs|
  {
    vs[i - 1]
  }

  class PreparedStatement {
    var slots: map<nat, Value>

    constructor ()
      ensures slots == map[]
    {
      slots := map[];
    }

    method Set(i: nat, v: Value)
      modifies this
      ensures slots == old(slots)[i := v]
    {
      slots := slots[i := v];
    }
  }

  lemma SlotsSnoc(vs: seq<Value>, v: Value)
    ensures Slots(vs)[|vs| + 1 := v] == Slots(vs + [v])
  {
  }

  method SetPstmtArray(fm: Formats, statement: PreparedStatement, f: Filter, j: nat, ghost before: seq<Value>)
    returns (ok: bool, k: nat)
    requires f.value.Many? && j == |before| && statement.slots == Slots(before)
    modifies statement
    ensures ok <==> Bindable(fm, f)
    ensures ok ==> k == j + |f.value.vs| && statement.slots == Slots(before + f.value.vs)
  {
    k := j;
    ok := Bindable(fm, f);
    if !ok {
      return;
    }
    for i := 0 to |f.value.vs|
      invariant k == j + i
      invariant statement.slots == Slots(before + f.value.vs[..i])
    {
      k := k + 1;
      statement.Set(k, f.value.vs[i]);
      SlotsSnoc(before + f.value.vs[..i], f.value.vs[i]);
      assert before + f.value.vs[..i] + [f.value.vs[i]] == before + f.value.vs[..i + 1];
    }
    assert f.value.vs[..|f.value.vs|] == f.value.vs;
  }

  lemma {:induction false} BoundSnoc(fs: seq<Filter>, f: Filter)
    ensures BoundAll(fs + [f]) == BoundAll(fs) + Bound(f)
  {
    if fs != [] {
      assert (fs + [f])[1..] == fs[1..] + [f];
      BoundSnoc(fs[1..], f);
    } else {
      assert [f][1..] == [];
    }
  }

  /** Binding with a running index: the slots are the bound values in order, starting at 1. */
  method SetFilterValuesOnPreparedStmt(fm: Formats, statement: PreparedStatement, fs: seq<Filter>) returns (ok: bool)
    requires statement.slots == map[]
    modifies statement
    ensures ok <==> forall f :: f in fs ==> Bindable(fm, f)
    ensures ok ==> statement.slots == Slots(BoundAll(fs))
  {
    var i := 0;
    ok := true;
    for n := 0 to |fs|
      invariant ok && forall m :: 0 <= m < n ==> Bindable(fm, fs[m])
      invariant i == |BoundAll(fs[..n])|
      invariant statement.slots == Slots(BoundAll(fs[..n]))
    {
      var f := fs[n];
      assert fs[..n + 1] == fs[..n] + [f];
      BoundSnoc(fs[..n], f);
      if f.value.Many? {
        ok, i := SetPstmtArray(fm, statement, f, i, BoundAll(fs[..n]));
      } else {
        i := i + 1;
        ok := Bindable(fm, f);
        if ok {
          statement.Set(i, f.value.v);
          SlotsSnoc(BoundAll(fs[..n]), f.value.v);
        }
      }
      if !ok {
        assert f in fs;
        return;
      }
    }
    assert fs[..|fs|] == fs;
  }

  // ---------------------------------------------------------------- the two traversals agree

  /** One filter: binding agrees with compiling iff a list stands exactly under IN. */
  lemma BindingMatchesFilter(f: Filter, table: Path)
    ensures CompileFilter(f, table, None).Emit?
    ensures AsOperands(Bound(f)) == CompileFilter(f, table, None).parameters <==> (f.op.IN? <==> f.value.Many?)
  {
    if f.value.One? {
      assert AsOperands(Bound(f)) == [f.value];
    } else if !f.op.IN? && f.value.vs != [] {
      assert AsOperands(Bound(f))[0].One?;
    }
  }

  lemma OperandsAppend(vs: seq<Value>, ws: seq<Value>)
    ensures AsOperands(vs + ws) == AsOperands(vs) + AsOperands(ws)
  {
  }

  lemma {:induction false} BindingMatchesFilters(fs: seq<Filter>, table: Path)
    requires GoodFilters(fs)
    ensures var e := CompileFilters(fs, table, None);
            e.EmitAll? && e.parameters == AsOperands(BoundAll(fs))
  {
    if fs != [] {
      assert fs[0] in fs;
      BindingMatchesFilter(fs[0], table);
      BindingMatchesFilters(fs[1..], table);
      OperandsAppend(Bound(fs[0]), BoundAll(fs[1..]));
    }
  }

  lemma {:induction false} BoundAppends(fs: seq<Filter>, gs: seq<Filter>)
    ensures BoundAll(fs + gs) == BoundAll(fs) + BoundAll(gs)
  {
    if fs == [] {
      assert fs + gs == gs;
    } else {
      assert (fs + gs)[1..] == fs[1..] + gs;
      BoundAppends(fs[1..], gs);
    }
  }

  /**
   The flattened filters, bound by a running index, fill every `?` of the compiled condition once and in order
   with the value the compiler collected for it.
   */
  lemma {:induction false} BindingMatchesCompiling(s: FilterSet, table: Path)
    requires WellFormed(s)
    ensures var e := Compile(s, table, None);
            e.Emit? && e.parameters == AsOperands(BoundAll(Flatten(s)))
    decreases s
  {
    if s.filters.Filters? {
      var fs := s.filters.list;
      BindingMatchesFilters(fs, table);
      if s.op.None? {
        assert fs == [fs[0]] && CompileFilters(fs[1..], table, None) == EmitAll([], []);
      }
    } else {
      BindingMatchesAll(s.filtersets.list, table);
      if s.op.None? {
        var ss := s.filtersets.list;
        assert ss[1..] == [];
        BindingMatchesCompiling(ss[0], table);
        assert FlattenAll(ss) == Flatten(ss[0]) + [] == Flatten(ss[0]);
      }
    }
  }

  lemma {:induction false} BindingMatchesAll(ss: seq<FilterSet>, table: Path)
    requires AllWellFormed(ss)
    ensures var e := CompileAll(ss, table, None);
            e.EmitAll? && e.parameters == AsOperands(BoundAll(FlattenAll(ss)))
    decreases ss
  {
    if ss != [] {
      BindingMatchesCompiling(ss[0], table);
      BindingMatchesAll(ss[1..], table);
      BoundAppends(Flatten(ss[0]), FlattenAll(ss[1..]));
      OperandsAppend(BoundAll(Flatten(ss[0])), BoundAll(FlattenAll(ss[1..])));
    }
  }

  /** So the statement, as bound by the second traversal, means what the tree means. */
  lemma BoundStatementMeaning(s: FilterSet, table: Path, co: Collation, env: Env)
    requires WellFormed(s) && AllPlaced(s, table, None)
    ensures var e := Compile(s, table, None);
            var ps := AsOperands(BoundAll(Flatten(s)));
            e.Emit? && |ps| == Holes(e.condition) &&
            Eval(e.condition, co, env, ps) == Meaning(DropLone(s), table, co, env)
  {
    BindingMatchesCompiling(s, table);
    EmittedMeaning(s, table, None, co, env);
  }
}
