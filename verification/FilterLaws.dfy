/** What the compiled condition means, position by position, and exactly when that is what the tree says. */
module FilterLaws {
  import opened Truth
  import opened Filters

  /** The filter's column lands on the table the filter names, and that table is joined. */
  predicate Placed(f: Filter, table: Path, aliases: Option<set<Path>>) {
    TableOf(f, table, aliases) == Intended(f, table).table &&
    (aliases.Some? && f.path != [] ==> f.path in aliases.value)
  }

  function PlacedIn(table: Path, aliases: Option<set<Path>>): Filter -> bool {
    (f: Filter) => Placed(f, table, aliases)
  }

  predicate AllPlaced(s: FilterSet, table: Path, aliases: Option<set<Path>>) {
    ForFilters(s, PlacedIn(table, aliases))
  }

  predicate EachAllPlaced(ss: seq<FilterSet>, table: Path, aliases: Option<set<Path>>) {
    ForAllFilters(ss, PlacedIn(table, aliases))
  }

  /** A name without dots names a column of the filtered type. */
  predicate Undotted(f: Filter) {
    |f.path| <= 1
  }

  lemma {:induction false} ForFiltersWeaken(s: FilterSet, p: Filter -> bool, p': Filter -> bool)
    requires ForFilters(s, p) && forall f :: p(f) ==> p'(f)
    ensures ForFilters(s, p')
    decreases s
  {
    if s.filtersets.Sets? {
      ForAllFiltersWeaken(s.filtersets.list, p, p');
    }
  }

  lemma {:induction false} ForAllFiltersWeaken(ss: seq<FilterSet>, p: Filter -> bool, p': Filter -> bool)
    requires ForAllFilters(ss, p) && forall f :: p(f) ==> p'(f)
    ensures ForAllFilters(ss, p')
    decreases ss
  {
    if ss != [] {
      ForFiltersWeaken(ss[0], p, p');
      ForAllFiltersWeaken(ss[1..], p, p');
    }
  }

  lemma ForFiltersSame(s: FilterSet, p: Filter -> bool, p': Filter -> bool)
    requires forall f :: p(f) <==> p'(f)
    ensures ForFilters(s, p) <==> ForFilters(s, p')
  {
    if ForFilters(s, p) {
      ForFiltersWeaken(s, p, p');
    }
    if ForFilters(s, p') {
      ForFiltersWeaken(s, p', p);
    }
  }

  lemma {:induction false} ForFiltersBoth(s: FilterSet, p: Filter -> bool, p': Filter -> bool)
    requires ForFilters(s, p) && ForFilters(s, p')
    ensures ForFilters(s, (f: Filter) => p(f) && p'(f))
    decreases s
  {
    if s.filtersets.Sets? {
      ForAllFiltersBoth(s.filtersets.list, p, p');
    }
  }

  lemma {:induction false} ForAllFiltersBoth(ss: seq<FilterSet>, p: Filter -> bool, p': Filter -> bool)
    requires ForAllFilters(ss, p) && ForAllFilters(ss, p')
    ensures ForAllFilters(ss, (f: Filter) => p(f) && p'(f))
    decreases ss
  {
    if ss != [] {
      ForFiltersBoth(ss[0], p, p');
      ForAllFiltersBoth(ss[1..], p, p');
    }
  }

  /** Filters that all have a property can be asked either of two questions that agree under it. */
  lemma {:induction false} ForFiltersSameUnder(
      s: FilterSet, given: Filter -> bool, p: Filter -> bool, p': Filter -> bool)
    requires ForFilters(s, given) && forall f :: given(f) ==> (p(f) <==> p'(f))
    ensures ForFilters(s, p) <==> ForFilters(s, p')
    decreases s
  {
    if s.filters.Filters? {
      assert forall f :: f in s.filters.list ==> given(f);
    }
    if s.filtersets.Sets? {
      ForAllFiltersSameUnder(s.filtersets.list, given, p, p');
    }
  }

  lemma {:induction false} ForAllFiltersSameUnder(
      ss: seq<FilterSet>, given: Filter -> bool, p: Filter -> bool, p': Filter -> bool)
    requires ForAllFilters(ss, given) && forall f :: given(f) ==> (p(f) <==> p'(f))
    ensures ForAllFilters(ss, p) <==> ForAllFilters(ss, p')
    decreases ss
  {
    if ss != [] {
      ForFiltersSameUnder(ss[0], given, p, p');
      ForAllFiltersSameUnder(ss[1..], given, p, p');
    }
  }

  lemma {:induction false} ForFiltersAlways(s: FilterSet, p: Filter -> bool)
    requires forall f :: p(f)
    ensures ForFilters(s, p)
    decreases s
  {
    if s.filtersets.Sets? {
      ForAllFiltersAlways(s.filtersets.list, p);
    }
  }

  lemma {:induction false} ForAllFiltersAlways(ss: seq<FilterSet>, p: Filter -> bool)
    requires forall f :: p(f)
    ensures ForAllFilters(ss, p)
    decreases ss
  {
    if ss != [] {
      ForFiltersAlways(ss[0], p);
      ForAllFiltersAlways(ss[1..], p);
    }
  }

  // ---------------------------------------------------------------- the set-level `not` that is lost

  /** The tree with every set-level `not` of an operator-less set removed. */
  function DropLone(s: FilterSet): FilterSet {
    s.(negation := s.negation && s.op.Some?,
       filtersets := if s.filtersets.Sets? then Sets(DropLoneAll(s.filtersets.list)) else NoSets)
  }

  function DropLoneAll(ss: seq<FilterSet>): (r: seq<FilterSet>)
    ensures |r| == |ss|
  {
    if ss == [] then [] else [DropLone(ss[0])] + DropLoneAll(ss[1..])
  }

  predicate NoLoneNegation(s: FilterSet) {
    (s.op.None? ==> !s.negation) && (s.filtersets.Sets? ==> NoLoneNegations(s.filtersets.list))
  }

  predicate NoLoneNegations(ss: seq<FilterSet>) {
    ss == [] || (NoLoneNegation(ss[0]) && NoLoneNegations(ss[1..]))
  }

  lemma {:induction false} DropLoneKeeps(s: FilterSet)
    requires NoLoneNegation(s)
    ensures DropLone(s) == s
    decreases s
  {
    if s.filtersets.Sets? {
      DropLoneAllKeeps(s.filtersets.list);
    }
  }

  lemma {:induction false} DropLoneAllKeeps(ss: seq<FilterSet>)
    requires NoLoneNegations(ss)
    ensures DropLoneAll(ss) == ss
    decreases ss
  {
    if ss != [] {
      DropLoneKeeps(ss[0]);
      DropLoneAllKeeps(ss[1..]);
    }
  }

  // ---------------------------------------------------------------- the emitted condition

  lemma ScalarsOfOperands(vs: seq<Value>)
    ensures Scalars(AsOperands(vs)) == vs
  {
  }

  /**
   Two ways to read the columns of a tree: as the compiler places them, in one environment, and as the filters name
   them from an origin, in another.
   */
  datatype Reading = Reading(table: Path, aliases: Option<set<Path>>, env: Env, origin: Path, world: Env)

  /** The column the compiler picks has the value the filter is about. */
  predicate Alike(f: Filter, r: Reading) {
    (r.aliases.Some? && f.path != [] ==> f.path in r.aliases.value) &&
    r.env(Column(TableOf(f, r.table, r.aliases), f.fieldName)) == r.world(Intended(f, r.origin))
  }

  function AlikeIn(r: Reading): Filter -> bool {
    (f: Filter) => Alike(f, r)
  }

  lemma FilterEmits(f: Filter, r: Reading, co: Collation)
    requires GoodFilter(f) && Alike(f, r)
    ensures var e := CompileFilter(f, r.table, r.aliases);
            e.Emit? && |e.parameters| == Holes(e.condition) &&
            Eval(e.condition, co, r.env, e.parameters) == FilterMeaning(f, r.origin, co, r.world)
  {
    if f.op.IN? {
      ScalarsOfOperands(f.value.vs);
    }
  }

  /** One parameter per `?`, and the members one by one mean what the filters say. */
  lemma {:induction false} FiltersEmit(fs: seq<Filter>, op: Connective, r: Reading, co: Collation)
    requires forall f :: f in fs ==> GoodFilter(f) && Alike(f, r)
    ensures var e := CompileFilters(fs, r.table, r.aliases);
            e.EmitAll? && |e.parameters| == HolesAll(e.conditions) &&
            EvalAll(op, e.conditions, co, r.env, e.parameters) == Fold(op, FilterMeanings(fs, r.origin, co, r.world))
  {
    if fs != [] {
      FilterEmits(fs[0], r, co);
      FiltersEmit(fs[1..], op, r, co);
      var first := CompileFilter(fs[0], r.table, r.aliases);
      var rest := CompileFilters(fs[1..], r.table, r.aliases);
      Spliced(op, first, rest, co, r.env);
      MeaningsTail(fs, r.origin, co, r.world);
    }
  }

  lemma MeaningsTail(fs: seq<Filter>, table: Path, co: Collation, env: Env)
    requires fs != []
    ensures FilterMeanings(fs, table, co, env) ==
              [FilterMeaning(fs[0], table, co, env)] + FilterMeanings(fs[1..], table, co, env)
  {
  }

  lemma Spliced(op: Connective, first: Emitted, rest: EmittedAll, co: Collation, env: Env)
    requires first.Emit? && |first.parameters| == Holes(first.condition)
    requires rest.EmitAll? && |rest.parameters| == HolesAll(rest.conditions)
    ensures var e := Prepend(first, rest);
            e.EmitAll? && |e.parameters| == HolesAll(e.conditions) &&
            EvalAll(op, e.conditions, co, env, e.parameters) ==
              Connect(op, Eval(first.condition, co, env, first.parameters),
                          EvalAll(op, rest.conditions, co, env, rest.parameters))
  {
    var e := Prepend(first, rest);
    assert e.conditions[1..] == rest.conditions;
    assert e.parameters[..Holes(first.condition)] == first.parameters;
    assert e.parameters[Holes(first.condition)..] == rest.parameters;
  }

  /** Every emitted condition comes with one parameter per `?`. */
  lemma {:induction false} CompileHoles(s: FilterSet, table: Path, aliases: Option<set<Path>>)
    ensures var e := Compile(s, table, aliases); e.Emit? ==> |e.parameters| == Holes(e.condition)
    decreases s
  {
    if s.filters.Filters? {
      FiltersHoles(s.filters.list, table, aliases);
    } else if s.filtersets.Sets? {
      SetsHoles(s.filtersets.list, table, aliases);
      if s.op.None? && s.filtersets.list != [] {
        CompileHoles(s.filtersets.list[0], table, aliases);
      }
    }
  }

  lemma {:induction false} FiltersHoles(fs: seq<Filter>, table: Path, aliases: Option<set<Path>>)
    ensures var e := CompileFilters(fs, table, aliases); e.EmitAll? ==> |e.parameters| == HolesAll(e.conditions)
    decreases fs
  {
    if fs != [] {
      FiltersHoles(fs[1..], table, aliases);
      PrependHoles(CompileFilter(fs[0], table, aliases), CompileFilters(fs[1..], table, aliases));
    }
  }

  lemma {:induction false} SetsHoles(ss: seq<FilterSet>, table: Path, aliases: Option<set<Path>>)
    ensures var e := CompileAll(ss, table, aliases); e.EmitAll? ==> |e.parameters| == HolesAll(e.conditions)
    decreases ss
  {
    if ss != [] {
      CompileHoles(ss[0], table, aliases);
      SetsHoles(ss[1..], table, aliases);
      PrependHoles(Compile(ss[0], table, aliases), CompileAll(ss[1..], table, aliases));
    }
  }

  lemma PrependHoles(first: Emitted, rest: EmittedAll)
    requires first.Emit? ==> |first.parameters| == Holes(first.condition)
    requires rest.EmitAll? ==> |rest.parameters| == HolesAll(rest.conditions)
    ensures var e := Prepend(first, rest); e.EmitAll? ==> |e.parameters| == HolesAll(e.conditions)
  {
    var e := Prepend(first, rest);
    if e.EmitAll? {
      assert e.conditions[1..] == rest.conditions;
    }
  }

  /** The path of a filter is the path of a joined table. */
  function SeenIn(known: set<Path>): Filter -> bool {
    (f: Filter) => f.path != [] ==> f.path in known
  }

  /** With an alias cache a tree compiles exactly when every path in it has an alias. */
  lemma {:induction false} EmitsIff(s: FilterSet, table: Path, known: set<Path>)
    requires WellFormed(s)
    ensures Compile(s, table, Some(known)).Emit? <==> ForFilters(s, SeenIn(known))
    ensures Compile(s, table, Some(known)).Emit? || Compile(s, table, Some(known)) == Fails(UnknownPath)
    decreases s
  {
    if s.filters.Filters? {
      MembersEmitIff(s.filters.list, table, known);
      assert s.op.None? ==> s.filters.list == [s.filters.list[0]];
    } else {
      var ss := s.filtersets.list;
      if s.op.Some? {
        SetsEmitIff(ss, table, known);
      } else {
        EmitsIff(ss[0], table, known);
        assert ss[1..] == [] && ForAllFilters(ss[1..], SeenIn(known));
        assert ForAllFilters(ss, SeenIn(known)) <==> ForFilters(ss[0], SeenIn(known));
      }
    }
  }

  lemma {:induction false} MembersEmitIff(fs: seq<Filter>, table: Path, known: set<Path>)
    ensures var all := CompileFilters(fs, table, Some(known));
            (all.EmitAll? <==> forall f :: f in fs ==> SeenIn(known)(f)) &&
            (all.EmitAll? || all == FailsAll(UnknownPath))
    decreases fs
  {
    if fs != [] {
      MembersEmitIff(fs[1..], table, known);
      assert CompileFilter(fs[0], table, Some(known)).Emit? <==> SeenIn(known)(fs[0]);
      assert forall f :: f in fs <==> f == fs[0] || f in fs[1..];
    }
  }

  lemma {:induction false} SetsEmitIff(ss: seq<FilterSet>, table: Path, known: set<Path>)
    requires AllWellFormed(ss)
    ensures var all := CompileAll(ss, table, Some(known));
            (all.EmitAll? <==> ForAllFilters(ss, SeenIn(known))) && (all.EmitAll? || all == FailsAll(UnknownPath))
    decreases ss
  {
    if ss != [] {
      EmitsIff(ss[0], table, known);
      SetsEmitIff(ss[1..], table, known);
    }
  }

  /** Where the compiler puts the columns of a tree. */
  function PutWhere(table: Path, aliases: Option<set<Path>>, p: Column -> bool): Filter -> bool {
    (f: Filter) => p(Column(TableOf(f, table, aliases), f.fieldName))
  }

  lemma NamesItsColumn(f: Filter, table: Path, aliases: Option<set<Path>>)
    requires CompileFilter(f, table, aliases).Emit?
    ensures NamedIn(CompileFilter(f, table, aliases).condition) == {Column(TableOf(f, table, aliases), f.fieldName)}
  {
    if !f.op.IN? {
      var column := Column(TableOf(f, table, aliases), f.fieldName);
      assert NamedIn(Binary(ToRDBMSComparison(f.op), column)) == {column};
    }
  }

  /** The emitted condition names the column of every filter of the tree, and no other. */
  lemma {:induction false} NamesEveryFilter(s: FilterSet, table: Path, aliases: Option<set<Path>>, p: Column -> bool)
    requires WellFormed(s) && Compile(s, table, aliases).Emit?
    ensures (forall c :: c in NamedIn(Compile(s, table, aliases).condition) ==> p(c)) <==>
              ForFilters(s, PutWhere(table, aliases, p))
    decreases s
  {
    if s.filters.Filters? {
      var fs := s.filters.list;
      if s.op.Some? {
        NamesEveryMember(fs, table, aliases, p);
      } else {
        NamesItsColumn(fs[0], table, aliases);
        assert PutWhere(table, aliases, p)(fs[0]) <==> p(Column(TableOf(fs[0], table, aliases), fs[0].fieldName));
        assert fs == [fs[0]] && fs[0] in fs;
        assert ForFilters(s, PutWhere(table, aliases, p)) <==> PutWhere(table, aliases, p)(fs[0]);
      }
    } else {
      var ss := s.filtersets.list;
      if s.op.Some? {
        NamesEverySet(ss, table, aliases, p);
      } else {
        NamesEveryFilter(ss[0], table, aliases, p);
        assert ss[1..] == [] && ForAllFilters(ss[1..], PutWhere(table, aliases, p));
        assert ForAllFilters(ss, PutWhere(table, aliases, p)) <==> ForFilters(ss[0], PutWhere(table, aliases, p));
      }
    }
  }

  lemma {:induction false} NamesEveryMember(
      fs: seq<Filter>, table: Path, aliases: Option<set<Path>>, p: Column -> bool)
    requires CompileFilters(fs, table, aliases).EmitAll?
    ensures (forall c :: c in NamedInAll(CompileFilters(fs, table, aliases).conditions) ==> p(c)) <==>
              forall f :: f in fs ==> PutWhere(table, aliases, p)(f)
    decreases fs
  {
    if fs != [] {
      NamesEveryMember(fs[1..], table, aliases, p);
      var first, all := CompileFilter(fs[0], table, aliases), CompileFilters(fs, table, aliases);
      assert all.conditions[1..] == CompileFilters(fs[1..], table, aliases).conditions;
      NamesItsColumn(fs[0], table, aliases);
      assert NamedInAll(all.conditions) == NamedIn(first.condition) + NamedInAll(all.conditions[1..]);
      assert PutWhere(table, aliases, p)(fs[0]) <==> p(Column(TableOf(fs[0], table, aliases), fs[0].fieldName));
      assert forall f :: f in fs <==> f == fs[0] || f in fs[1..];
    }
  }

  lemma {:induction false} NamesEverySet(
      ss: seq<FilterSet>, table: Path, aliases: Option<set<Path>>, p: Column -> bool)
    requires AllWellFormed(ss) && CompileAll(ss, table, aliases).EmitAll?
    ensures (forall c :: c in NamedInAll(CompileAll(ss, table, aliases).conditions) ==> p(c)) <==>
              ForAllFilters(ss, PutWhere(table, aliases, p))
    decreases ss
  {
    if ss != [] {
      NamesEveryFilter(ss[0], table, aliases, p);
      NamesEverySet(ss[1..], table, aliases, p);
      var all := CompileAll(ss, table, aliases);
      assert all.conditions[1..] == CompileAll(ss[1..], table, aliases).conditions;
    }
  }

  /** The condition emitted for a tree, its `?` filled in text order, means the tree. */
  ghost predicate Means(e: Emitted, s: FilterSet, table: Path, co: Collation, env: Env) {
    MeansIn(e, s, co, Reading(table, None, env, table, env))
  }

  ghost predicate MeansIn(e: Emitted, s: FilterSet, co: Collation, r: Reading) {
    e.Emit? && |e.parameters| == Holes(e.condition) &&
    Eval(e.condition, co, r.env, e.parameters) == Meaning(s, r.origin, co, r.world)
  }

  lemma FiltersMean(s: FilterSet, r: Reading, co: Collation)
    requires WellFormed(s) && ForFilters(s, AlikeIn(r)) && s.filters.Filters?
    ensures MeansIn(Compile(s, r.table, r.aliases), DropLone(s), co, r)
  {
    var fs := s.filters.list;
    assert forall f :: f in fs ==> AlikeIn(r)(f);
    if s.op.Some? {
      FiltersEmit(fs, s.op.value, r, co);
    } else {
      assert fs[0] in fs;
      FilterEmits(fs[0], r, co);
    }
  }

  /**
   The compiler reads a tree as it places its columns: whatever is stored where, when every placed column has the value
   of the column the filter is about, the condition has the truth value of the tree without the operator-less negations.
   */
  lemma {:induction false} EmittedReads(s: FilterSet, r: Reading, co: Collation)
    requires WellFormed(s) && ForFilters(s, AlikeIn(r))
    ensures MeansIn(Compile(s, r.table, r.aliases), DropLone(s), co, r)
    decreases s
  {
    if s.filters.Filters? {
      FiltersMean(s, r, co);
    } else {
      var ss := s.filtersets.list;
      assert ForAllFilters(ss, AlikeIn(r));
      if s.op.Some? {
        SetsEmit(ss, s.op.value, r, co);
      } else {
        EmittedReads(ss[0], r, co);
      }
    }
  }

  lemma {:induction false} SetsEmit(ss: seq<FilterSet>, op: Connective, r: Reading, co: Collation)
    requires AllWellFormed(ss) && ForAllFilters(ss, AlikeIn(r))
    ensures var e := CompileAll(ss, r.table, r.aliases);
            e.EmitAll? && |e.parameters| == HolesAll(e.conditions) &&
            EvalAll(op, e.conditions, co, r.env, e.parameters) ==
              Fold(op, Meanings(DropLoneAll(ss), r.origin, co, r.world))
    decreases ss
  {
    if ss != [] {
      EmittedReads(ss[0], r, co);
      SetsEmit(ss[1..], op, r, co);
      Spliced(op, Compile(ss[0], r.table, r.aliases), CompileAll(ss[1..], r.table, r.aliases), co, r.env);
      assert DropLoneAll(ss)[1..] == DropLoneAll(ss[1..]);
    }
  }

  /**
   The exact law of the compiler, on every row: the emitted condition, its `?` filled from the parameter list
   in text order, has the truth value of the tree without the operator-less negations.
   */
  lemma EmittedMeaning(s: FilterSet, table: Path, aliases: Option<set<Path>>, co: Collation, env: Env)
    requires WellFormed(s) && AllPlaced(s, table, aliases)
    ensures Means(Compile(s, table, aliases), DropLone(s), table, co, env)
  {
    var r := Reading(table, aliases, env, table, env);
    ForFiltersWeaken(s, PlacedIn(table, aliases), AlikeIn(r));
    EmittedReads(s, r, co);
  }

  /** Compilation preserves meaning: no lone `not`, same three-valued truth on every row. */
  lemma CompilePreservesMeaning(s: FilterSet, table: Path, aliases: Option<set<Path>>, co: Collation, env: Env)
    requires WellFormed(s) && AllPlaced(s, table, aliases) && NoLoneNegation(s)
    ensures Means(Compile(s, table, aliases), s, table, co, env)
  {
    EmittedMeaning(s, table, aliases, co, env);
    DropLoneKeeps(s);
  }

  // ---------------------------------------------------------------- exactly when meaning is preserved

  /** The set itself and every set nested in it. */
  function Subsets(s: FilterSet): set<FilterSet> {
    {s} + if s.filtersets.Sets? then SubsetsAll(s.filtersets.list) else {}
  }

  function SubsetsAll(ss: seq<FilterSet>): set<FilterSet> {
    if ss == [] then {} else Subsets(ss[0]) + SubsetsAll(ss[1..])
  }

  predicate PreservedOn(s: FilterSet, table: Path, aliases: Option<set<Path>>, co: Collation, env: Env) {
    var e := Compile(s, table, aliases);
    e.Emit? && |e.parameters| == Holes(e.condition) &&
    Eval(e.condition, co, env, e.parameters) == Meaning(s, table, co, env)
  }

  ghost predicate Preserved(s: FilterSet, table: Path, aliases: Option<set<Path>>) {
    forall co: Collation, env: Env :: PreservedOn(s, table, aliases, co, env)
  }

  predicate NonNull(f: Filter) {
    match f.value
    case One(v) => v.Val?
    case Many(vs) => Null !in vs
  }

  predicate AllNonNull(s: FilterSet) {
    ForFilters(s, NonNull)
  }

  function SomeRow(): Env {
    (c: Column) => Val("")
  }

  lemma {:induction false} AnyEqualDecided(a: Value, vs: seq<Value>)
    requires a.Val? && Null !in vs
    ensures AnyEqual(a, vs) != Unknown
  {
    if vs != [] {
      AnyEqualDecided(a, vs[1..]);
    }
  }

  /** On a row without NULLs no tree over non-null values is Unknown. */
  lemma {:induction false} Decided(s: FilterSet, table: Path, co: Collation)
    requires WellFormed(s) && AllNonNull(s)
    ensures Meaning(s, table, co, SomeRow()) != Unknown
    decreases s
  {
    if s.filters.Filters? {
      var fs := s.filters.list;
      forall f | f in fs
        ensures FilterMeaning(f, table, co, SomeRow()) != Unknown
      {
        if f.value.Many? {
          AnyEqualDecided(Val(""), f.value.vs);
        }
      }
      if s.op.Some? {
        FoldIsSetBased(s.op.value, FilterMeanings(fs, table, co, SomeRow()));
      } else {
        assert fs[0] in fs;
      }
    } else {
      AllDecided(s.filtersets.list, table, co);
      if s.op.Some? {
        FoldIsSetBased(s.op.value, Meanings(s.filtersets.list, table, co, SomeRow()));
      }
    }
  }

  lemma {:induction false} AllDecided(ss: seq<FilterSet>, table: Path, co: Collation)
    requires AllWellFormed(ss) && ForAllFilters(ss, NonNull)
    ensures Unknown !in Meanings(ss, table, co, SomeRow())
    decreases ss
  {
    if ss != [] {
      Decided(ss[0], table, co);
      AllDecided(ss[1..], table, co);
    }
  }

  /** A lone `not` over a faithfully compiled member: the condition is the opposite of what was asked. */
  lemma LoneNegationInverts(s: FilterSet, table: Path, aliases: Option<set<Path>>, co: Collation, env: Env)
    requires WellFormed(s) && AllPlaced(s, table, aliases)
    requires s.op.None? && s.negation && NoLoneNegation(s.(negation := false))
    ensures var e := Compile(s, table, aliases);
            e.Emit? && |e.parameters| == Holes(e.condition) &&
            Meaning(s, table, co, env) == Not3(Eval(e.condition, co, env, e.parameters))
  {
    EmittedMeaning(s, table, aliases, co, env);
    DropLoneKeeps(s.(negation := false));
    assert DropLone(s) == s.(negation := false);
  }

  lemma {:induction false} LoneNegationBreaks(s: FilterSet, table: Path, aliases: Option<set<Path>>)
    returns (t: FilterSet)
    requires WellFormed(s) && AllPlaced(s, table, aliases) && AllNonNull(s) && !NoLoneNegation(s)
    ensures t in Subsets(s) && !Preserved(t, table, aliases)
    decreases s
  {
    if s.filtersets.Sets? && !NoLoneNegations(s.filtersets.list) {
      t := SomeLoneNegationBreaks(s.filtersets.list, table, aliases);
    } else {
      t := s;
      var co := Collation((a, b) => false, (a, b) => false);
      LoneNegationInverts(s, table, aliases, co, SomeRow());
      Decided(s, table, co);
      assert !PreservedOn(s, table, aliases, co, SomeRow());
    }
  }

  lemma {:induction false} SomeLoneNegationBreaks(ss: seq<FilterSet>, table: Path, aliases: Option<set<Path>>)
    returns (t: FilterSet)
    requires AllWellFormed(ss) && EachAllPlaced(ss, table, aliases) && ForAllFilters(ss, NonNull)
    requires !NoLoneNegations(ss)
    ensures t in SubsetsAll(ss) && !Preserved(t, table, aliases)
    decreases ss
  {
    if NoLoneNegation(ss[0]) {
      t := SomeLoneNegationBreaks(ss[1..], table, aliases);
    } else {
      t := LoneNegationBreaks(ss[0], table, aliases);
    }
  }

  lemma {:induction false} NoLoneNegationBelow(s: FilterSet, t: FilterSet, table: Path, aliases: Option<set<Path>>)
    requires WellFormed(s) && AllPlaced(s, table, aliases) && NoLoneNegation(s) && t in Subsets(s)
    ensures WellFormed(t) && AllPlaced(t, table, aliases) && NoLoneNegation(t)
    decreases s
  {
    if t != s {
      NoLoneNegationsBelow(s.filtersets.list, t, table, aliases);
    }
  }

  lemma {:induction false} NoLoneNegationsBelow(
      ss: seq<FilterSet>, t: FilterSet, table: Path, aliases: Option<set<Path>>)
    requires AllWellFormed(ss) && EachAllPlaced(ss, table, aliases) && NoLoneNegations(ss) && t in SubsetsAll(ss)
    ensures WellFormed(t) && AllPlaced(t, table, aliases) && NoLoneNegation(t)
    decreases ss
  {
    if t in Subsets(ss[0]) {
      NoLoneNegationBelow(ss[0], t, table, aliases);
    } else {
      NoLoneNegationsBelow(ss[1..], t, table, aliases);
    }
  }

  /**
   Every set of the tree keeps its meaning through the compiler iff no set without an operator carries a `not`.
   */
  lemma PreservedIffNoLoneNegation(s: FilterSet, table: Path, aliases: Option<set<Path>>)
    requires WellFormed(s) && AllPlaced(s, table, aliases) && AllNonNull(s)
    ensures (forall t :: t in Subsets(s) ==> Preserved(t, table, aliases)) <==> NoLoneNegation(s)
  {
    if NoLoneNegation(s) {
      forall t | t in Subsets(s)
        ensures Preserved(t, table, aliases)
      {
        NoLoneNegationBelow(s, t, table, aliases);
        forall co: Collation, env: Env
          ensures PreservedOn(t, table, aliases, co, env)
        {
          CompilePreservesMeaning(t, table, aliases, co, env);
        }
      }
    } else {
      var t := LoneNegationBreaks(s, table, aliases);
    }
  }

  // ---------------------------------------------------------------- the more is known

  lemma {:induction false} NullEqualsNothing(vs: seq<Value>)
    requires vs != []
    ensures AnyEqual(Null, vs) == Unknown
  {
    if |vs| > 1 {
      NullEqualsNothing(vs[1..]);
    }
  }

  /** Unknown becomes anything, Yes and No stay. */
  predicate AtMost(a: Truth, b: Truth) {
    a == Unknown || a == b
  }

  predicate AllAtMost(ts: seq<Truth>, us: seq<Truth>) {
    |ts| == |us| && forall i :: 0 <= i < |ts| ==> AtMost(ts[i], us[i])
  }

  /** The column of a filter has the same value in the second environment, or is NULL in the first. */
  predicate Clearer(f: Filter, table: Path, env: Env, table': Path, env': Env) {
    var a, b := env(Intended(f, table)), env'(Intended(f, table'));
    a.Null? || a == b
  }

  function ClearerIn(table: Path, env: Env, table': Path, env': Env): Filter -> bool {
    (f: Filter) => Clearer(f, table, env, table', env')
  }

  lemma {:induction false} FoldClears(op: Connective, ts: seq<Truth>, us: seq<Truth>)
    requires AllAtMost(ts, us)
    ensures AtMost(Fold(op, ts), Fold(op, us))
  {
    if ts != [] {
      FoldClears(op, ts[1..], us[1..]);
    }
  }

  lemma FilterClears(f: Filter, table: Path, env: Env, table': Path, env': Env, co: Collation)
    requires GoodFilter(f) && Clearer(f, table, env, table', env')
    ensures AtMost(FilterMeaning(f, table, co, env), FilterMeaning(f, table', co, env'))
  {
    if f.value.Many? && env(Intended(f, table)).Null? {
      NullEqualsNothing(f.value.vs);
    }
  }

  /** Values in place of NULLs never take back what a tree decides. */
  lemma {:induction false} MeaningClears(
      s: FilterSet, table: Path, env: Env, table': Path, env': Env, co: Collation)
    requires WellFormed(s) && ForFilters(s, ClearerIn(table, env, table', env'))
    ensures AtMost(Meaning(s, table, co, env), Meaning(s, table', co, env'))
    decreases s
  {
    if s.filters.Filters? {
      var fs := s.filters.list;
      forall f | f in fs
        ensures AtMost(FilterMeaning(f, table, co, env), FilterMeaning(f, table', co, env'))
      {
        assert ClearerIn(table, env, table', env')(f);
        FilterClears(f, table, env, table', env', co);
      }
      if s.op.Some? {
        FoldClears(s.op.value, FilterMeanings(fs, table, co, env), FilterMeanings(fs, table', co, env'));
      }
    } else {
      var ss := s.filtersets.list;
      AllMeaningsClear(ss, table, env, table', env', co);
      if s.op.Some? {
        FoldClears(s.op.value, Meanings(ss, table, co, env), Meanings(ss, table', co, env'));
      }
    }
  }

  lemma {:induction false} AllMeaningsClear(
      ss: seq<FilterSet>, table: Path, env: Env, table': Path, env': Env, co: Collation)
    requires AllWellFormed(ss) && ForAllFilters(ss, ClearerIn(table, env, table', env'))
    ensures AllAtMost(Meanings(ss, table, co, env), Meanings(ss, table', co, env'))
    decreases ss
  {
    if ss != [] {
      MeaningClears(ss[0], table, env, table', env', co);
      AllMeaningsClear(ss[1..], table, env, table', env', co);
      var ts, us := Meanings(ss, table, co, env), Meanings(ss, table', co, env');
      assert ts[1..] == Meanings(ss[1..], table, co, env) && us[1..] == Meanings(ss[1..], table', co, env');
      assert forall i :: 0 < i < |ss| ==> ts[i] == ts[1..][i - 1] && us[i] == us[1..][i - 1];
    }
  }

  /** A tree means the same in two environments in which its columns have the same values. */
  lemma SameMeaning(s: FilterSet, table: Path, env: Env, table': Path, env': Env, co: Collation)
    requires WellFormed(s)
    requires ForFilters(s, ClearerIn(table, env, table', env')) && ForFilters(s, ClearerIn(table', env', table, env))
    ensures Meaning(s, table, co, env) == Meaning(s, table', co, env')
  {
    MeaningClears(s, table, env, table', env', co);
    MeaningClears(s, table', env', table, env, co);
  }

  // ---------------------------------------------------------------- dotted names without aliases

  lemma {:induction false} UndottedIsPlaced(s: FilterSet, table: Path)
    requires ForFilters(s, Undotted)
    ensures AllPlaced(s, table, None)
  {
    ForFiltersWeaken(s, Undotted, PlacedIn(table, None));
  }

  /** On a row of NULLs a set of filters is Unknown. */
  lemma NothingKnown(s: FilterSet, co: Collation)
    requires WellFormed(s) && s.filters.Filters?
    ensures Meaning(DropLone(s), [], co, (c: Column) => Null) == Unknown
  {
    var fs, nulls := s.filters.list, (c: Column) => Null;
    forall f | f in fs
      ensures FilterMeaning(f, [], co, nulls) == Unknown
    {
      if f.value.Many? {
        NullEqualsNothing(f.value.vs);
      }
    }
    var members := FilterMeanings(fs, [], co, nulls);
    assert fs[0] in fs && members[0] in members;
    if s.op.Some? {
      FoldIsSetBased(s.op.value, members);
    }
  }

  lemma {:induction false} SomeOtherText(vs: seq<Value>) returns (text: string)
    ensures forall v :: v in vs ==> v != Val(text)
    ensures forall v :: v in vs && v.Val? ==> |v.text| < |text|
  {
    text := "x";
    if vs != [] {
      var other := SomeOtherText(vs[1..]);
      text := other + (if vs[0].Val? then vs[0].text else "") + "x";
    }
  }

  /** A filter over non-null values can be made true, and can be made false, by the value of its column. */
  lemma CanBe(f: Filter, wanted: bool) returns (co: Collation, v: string)
    requires GoodFilter(f) && NonNull(f)
    ensures forall table, env: Env :: env(Intended(f, table)) == Val(v) ==>
              FilterMeaning(f, table, co, env) == Truly(wanted)
  {
    var raw := wanted != f.negation;
    co := Collation((a, b) => raw, (a, b) => raw);
    if f.value.Many? {
      var other := SomeOtherText(f.value.vs);
      v := if raw then f.value.vs[0].text else other;
      AnyEqualYes(Val(v), f.value.vs);
      AnyEqualDecided(Val(v), f.value.vs);
      assert f.value.vs[0] in f.value.vs;
    } else {
      var equal := if f.op.EQ? then raw else if f.op.NE? then !raw else false;
      v := if equal then f.value.v.text else f.value.v.text + "x";
    }
  }

  /** A row that shows nothing but one column. */
  function Only(c: Column, v: string): Env {
    (d: Column) => if d == c then Val(v) else Null
  }

  /** The compiler without aliases looks at the filtered table only. */
  lemma BlindToOtherTables(s: FilterSet, table: Path, c: Column, v: string, co: Collation)
    requires WellFormed(s) && s.filters.Filters? && c.table != table
    ensures var e := Compile(s, table, None);
            e.Emit? && |e.parameters| == Holes(e.condition) &&
            Eval(e.condition, co, Only(c, v), e.parameters) == Unknown
  {
    var r := Reading(table, None, Only(c, v), [], (c: Column) => Null);
    ForFiltersAlways(s, AlikeIn(r));
    EmittedReads(s, r, co);
    NothingKnown(s, co);
  }

  /** One member decides a set, or is its only one. */
  lemma DecidedByMember(s: FilterSet, table: Path, f: Filter, co: Collation, env: Env)
    requires WellFormed(s) && s.filters.Filters? && f in s.filters.list
    requires FilterMeaning(f, table, co, env) == Truly(s.op == Some(Or))
    ensures Meaning(s, table, co, env) != Unknown
  {
    var members := FilterMeanings(s.filters.list, table, co, env);
    var i :| 0 <= i < |s.filters.list| && s.filters.list[i] == f;
    assert members[i] in members;
    if s.op.Some? {
      FoldDecided(s.op.value, members);
    }
  }

  lemma FoldDecided(op: Connective, members: seq<Truth>)
    requires Truly(op.Or?) in members
    ensures Fold(op, members) == Truly(op.Or?)
  {
    FoldIsSetBased(op, members);
  }

  /** A dotted filter compiled without aliases: on some rows its set is decided and the condition is not. */
  lemma DottedBreaks(s: FilterSet, table: Path, f: Filter)
    requires WellFormed(s) && AllNonNull(s) && s.filters.Filters? && f in s.filters.list && !Undotted(f)
    ensures !Preserved(s, table, None)
  {
    assert NonNull(f);
    var co, v := CanBe(f, s.op == Some(Or));
    var c := Intended(f, table);
    assert |c.table| > |table|;
    BlindToOtherTables(s, table, c, v, co);
    DecidedByMember(s, table, f, co, Only(c, v));
    assert !PreservedOn(s, table, None, co, Only(c, v));
  }

  lemma {:induction false} SomeDottedBreaks(s: FilterSet, table: Path) returns (t: FilterSet)
    requires WellFormed(s) && AllNonNull(s) && !ForFilters(s, Undotted)
    ensures t in Subsets(s) && !Preserved(t, table, None)
    decreases s
  {
    if s.filters.Filters? {
      var f :| f in s.filters.list && !Undotted(f);
      t := s;
      DottedBreaks(s, table, f);
    } else {
      t := SomeDottedOfAllBreaks(s.filtersets.list, table);
    }
  }

  lemma {:induction false} SomeDottedOfAllBreaks(ss: seq<FilterSet>, table: Path) returns (t: FilterSet)
    requires AllWellFormed(ss) && ForAllFilters(ss, NonNull) && !ForAllFilters(ss, Undotted)
    ensures t in SubsetsAll(ss) && !Preserved(t, table, None)
    decreases ss
  {
    if ForFilters(ss[0], Undotted) {
      t := SomeDottedOfAllBreaks(ss[1..], table);
    } else {
      t := SomeDottedBreaks(ss[0], table);
    }
  }

  /**
   Without an alias cache, as filters of nested selections and all filters of batch mode are compiled: every set of the
   tree keeps its meaning iff no set without an operator carries a `not` and no filter has a dotted name.
   */
  lemma PreservedWithoutAliasesIff(s: FilterSet, table: Path)
    requires WellFormed(s) && AllNonNull(s)
    ensures (forall t :: t in Subsets(s) ==> Preserved(t, table, None)) <==>
              NoLoneNegation(s) && ForFilters(s, Undotted)
  {
    if ForFilters(s, Undotted) {
      UndottedIsPlaced(s, table);
      PreservedIffNoLoneNegation(s, table, None);
    } else {
      var t := SomeDottedBreaks(s, table);
    }
  }

  /** The concrete case: asking for rows whose status is not "open" selects the open ones. */
  lemma NotOpenSelectsOpen(co: Collation)
    ensures var open := Filter(["Order"], "status", TString, EQ, One(Val("open")), false);
            var s := FilterSet(Filters([open]), NoSets, None, true);
            var row := (c: Column) => if c == Column(["Order"], "status") then Val("open") else Null;
            var e := Compile(s, ["Order"], None);
            e == Emit(Binary(EqualTo, Column(["Order"], "status")), [One(Val("open"))]) &&
            Eval(e.condition, co, row, e.parameters) == Yes && Meaning(s, ["Order"], co, row) == No
  {
  }
}
