/** Reading the filter argument of a query: dotted names are resolved over the schema, every set is validated. */
module FilterReader {
  import opened Truth
  import opened Filters
  import opened FilterParser
  import opened Schema

  /** The argument as parsed by the GraphQL layer: a field name and an operator are always there. */
  datatype FilterInput = FilterInput(field: string, op: Comparison, value: Operand, negation: bool)

  datatype InputFilters = NoInputFilters | InputFilters(list: seq<FilterInput>)
  datatype InputSets = NoInputSets | InputSets(list: seq<SetInput>)

  datatype SetInput = SetInput(filters: InputFilters, filtersets: InputSets, op: Option<Connective>, negation: bool)

  // ---------------------------------------------------------------- dotted names

  /** The parts between the dots. */
  function Parts(s: string): (r: seq<string>)
    ensures r != []
  {
    if s == "" then [""]
    else if s[0] == '.' then [""] + Parts(s[1..])
    else var rest := Parts(s[1..]); [[s[0]] + rest[0]] + rest[1..]
  }

  /** java.lang.String.split drops empty parts at the end. */
  function DropEmptyEnd(parts: seq<string>): seq<string> {
    if parts == [] || parts[|parts| - 1] != "" then parts else DropEmptyEnd(parts[..|parts| - 1])
  }

  function FieldPath(name: string): seq<string> {
    if '.' in name then DropEmptyEnd(Parts(name)) else [name]
  }

  /** The type a path of relationships leads to. */
  function Follow(schema: map<string, ObjectType>, t: ObjectType, path: seq<string>): Option<ObjectType> {
    if path == [] then Some(t)
    else
      var from := Follow(schema, t, path[..|path| - 1]);
      if from.None? then None else Target(schema, from.value, path[|path| - 1])
  }

  function Target(schema: map<string, ObjectType>, t: ObjectType, field: string): Option<ObjectType> {
    var d := Definition(t, field);
    if d.Some? && d.value.kind.Relationship? && d.value.kind.to in schema then Some(schema[d.value.kind.to]) else None
  }

  /** The field a filter names exists on the type its path leads to. */
  predicate NamesField(schema: map<string, ObjectType>, t: ObjectType, f: Filter) {
    f.path != [] && f.path[0] == t.name &&
    Follow(schema, t, f.path[1..]).Some? && Definition(Follow(schema, t, f.path[1..]).value, f.fieldName).Some?
  }

  predicate IsScalar(t: ObjectType, name: string) {
    Definition(t, name).Some? && Definition(t, name).value.kind.Scalar?
  }

  /** That field is a scalar, so a column of the type's table. */
  predicate NamesColumn(schema: map<string, ObjectType>, t: ObjectType, f: Filter) {
    NamesField(schema, t, f) && IsScalar(Follow(schema, t, f.path[1..]).value, f.fieldName)
  }

  function TypeOf(d: FieldDefinition): FieldType {
    match d.kind
    case Scalar(name) =>
      if name == "String" then TString else if name == "Long" then TLong else if name == "Int" then TInt
      else if name == "ID" then TID else if name == "Float" then TFloat else if name == "Boolean" then TBoolean
      else if name == "Short" then TShort else if name == "Byte" then TByte else if name == "Timestamp" then TTimestamp
      else if name == "Date" then TDate else if name == "Time" then TTime else TOther
    case _ => TOther
  }

  function ReadFilter(schema: map<string, ObjectType>, t: ObjectType, f: FilterInput): Option<Filter> {
    var names := FieldPath(f.field);
    if names == [] then None
    else
      var up, last := names[..|names| - 1], names[|names| - 1];
      var at := Follow(schema, t, up);
      if at.None? || Definition(at.value, last).None? then None
      else Some(Filter([t.name] + up, last, TypeOf(Definition(at.value, last).value), f.op, f.value, f.negation))
  }

  function ReadFilters(schema: map<string, ObjectType>, t: ObjectType, fs: seq<FilterInput>): Option<seq<Filter>> {
    if fs == [] then Some([])
    else
      var init, last := ReadFilters(schema, t, fs[..|fs| - 1]), ReadFilter(schema, t, fs[|fs| - 1]);
      if init.None? || last.None? then None else Some(init.value + [last.value])
  }

  /** The tree as written, before any set is validated. */
  function ReadSet(schema: map<string, ObjectType>, t: ObjectType, s: SetInput): Option<FilterSet>
    decreases s, 1
  {
    var filters := if s.filters.InputFilters? then ReadFilters(schema, t, s.filters.list) else Some([]);
    var sets := if s.filtersets.InputSets? then ReadSets(schema, t, s.filtersets.list) else Some([]);
    if filters.None? || sets.None? then None
    else Some(FilterSet(if s.filters.InputFilters? then Filters(filters.value) else NoFilters,
                        if s.filtersets.InputSets? then Sets(sets.value) else NoSets, s.op, s.negation))
  }

  function ReadSets(schema: map<string, ObjectType>, t: ObjectType, ss: seq<SetInput>): Option<seq<FilterSet>>
    decreases ss, 0
  {
    if ss == [] then Some([])
    else
      var first, rest := ReadSet(schema, t, ss[0]), ReadSets(schema, t, ss[1..]);
      if first.None? || rest.None? then None else Some([first.value] + rest.value)
  }

  /** The tree of an argument that reads and validates. */
  function Accepted(schema: map<string, ObjectType>, t: ObjectType, s: SetInput): Option<FilterSet> {
    var raw := ReadSet(schema, t, s);
    if raw.None? then None
    else match Validate(raw.value) case Valid(set_) => Some(set_) case Invalid(_) => None
  }

  function AcceptedAll(schema: map<string, ObjectType>, t: ObjectType, ss: seq<SetInput>): Option<seq<FilterSet>> {
    var raw := ReadSets(schema, t, ss);
    if raw.None? then None
    else match ValidateAll(raw.value) case ValidAll(sets) => Some(sets) case InvalidAll(_) => None
  }

  // ---------------------------------------------------------------- as it runs

  method ParseFilter(schema: map<string, ObjectType>, t: ObjectType, f: FilterInput) returns (r: Option<Filter>)
    ensures r == ReadFilter(schema, t, f)
  {
    var fieldPath := FieldPath(f.field);
    if fieldPath == [] {
      return None;
    }
    var fieldName := fieldPath[|fieldPath| - 1];
    var path := [t.name];
    var tempType := t;
    for i := 0 to |fieldPath| - 1
      invariant path == [t.name] + fieldPath[..i] && Follow(schema, t, fieldPath[..i]) == Some(tempType)
    {
      assert fieldPath[..i + 1][..i] == fieldPath[..i];
      var next := Target(schema, tempType, fieldPath[i]);
      if next.None? {
        assert fieldPath[..|fieldPath| - 1][..i + 1] == fieldPath[..i + 1];
        FollowFails(schema, t, fieldPath[..|fieldPath| - 1], i + 1);
        return None;
      }
      tempType := next.value;
      path := path + [fieldPath[i]];
    }
    var d := Definition(tempType, fieldName);
    r := if d.None? then None else Some(Filter(path, fieldName, TypeOf(d.value), f.op, f.value, f.negation));
  }

  lemma {:induction false} FollowFails(schema: map<string, ObjectType>, t: ObjectType, path: seq<string>, i: nat)
    requires i <= |path| && Follow(schema, t, path[..i]).None?
    ensures Follow(schema, t, path).None?
    decreases |path| - i
  {
    if i < |path| {
      assert path[..i + 1][..i] == path[..i];
      FollowFails(schema, t, path, i + 1);
    } else {
      assert path[..i] == path;
    }
  }

  method ParseFilters(schema: map<string, ObjectType>, t: ObjectType, fs: seq<FilterInput>)
    returns (r: Option<seq<Filter>>)
    ensures r == ReadFilters(schema, t, fs)
  {
    var filters := [];
    for i := 0 to |fs|
      invariant ReadFilters(schema, t, fs[..i]) == Some(filters)
    {
      assert fs[..i + 1][..i] == fs[..i];
      var f := ParseFilter(schema, t, fs[i]);
      if f.None? {
        OneUnreadable(schema, t, fs, i + 1);
        return None;
      }
      filters := filters + [f.value];
    }
    assert fs[..|fs|] == fs;
    r := Some(filters);
  }

  lemma {:induction false} OneUnreadable(schema: map<string, ObjectType>, t: ObjectType, fs: seq<FilterInput>, i: nat)
    requires i <= |fs| && ReadFilters(schema, t, fs[..i]).None?
    ensures ReadFilters(schema, t, fs).None?
    decreases |fs| - i
  {
    if i < |fs| {
      assert fs[..i + 1][..i] == fs[..i];
      OneUnreadable(schema, t, fs, i + 1);
    } else {
      assert fs[..i] == fs;
    }
  }

  /** One set whose inner sets are validated already. */
  function ValidateOne(s: FilterSet): Option<FilterSet> {
    if s.filters.Filters? && s.filtersets.Sets? then None
    else if s.filters.NoFilters? && s.filtersets.NoSets? then None
    else if (s.filters.Filters? && |s.filters.list| > 1) || (s.filtersets.Sets? && |s.filtersets.list| > 1) then
      if s.op.None? then None else Some(s)
    else Some(s.(op := None))
  }

  lemma AcceptedStep(schema: map<string, ObjectType>, t: ObjectType, ss: seq<SetInput>)
    requires ss != []
    ensures var first, rest := Accepted(schema, t, ss[0]), AcceptedAll(schema, t, ss[1..]);
            AcceptedAll(schema, t, ss) == if first.None? || rest.None? then None else Some([first.value] + rest.value)
  {
    var first, rest := ReadSet(schema, t, ss[0]), ReadSets(schema, t, ss[1..]);
    if first.Some? && rest.Some? {
      assert ([first.value] + rest.value)[1..] == rest.value;
    }
  }

  method ParseQueryFilter(schema: map<string, ObjectType>, t: ObjectType, s: SetInput) returns (r: Option<FilterSet>)
    ensures r == Accepted(schema, t, s) && (r.Some? <==> InOrder(schema, t, s))
    decreases s, 1
  {
    AcceptedIff(schema, t, s);
    var filterSet := FilterSet(NoFilters, NoSets, s.op, s.negation);
    if s.filters.InputFilters? {
      var filters := ParseFilters(schema, t, s.filters.list);
      if filters.None? {
        return None;
      }
      filterSet := filterSet.(filters := Filters(filters.value));
    }
    if s.filtersets.InputSets? {
      var sets := ParseQueryFilters(schema, t, s.filtersets.list);
      if sets.None? {
        return None;
      }
      filterSet := filterSet.(filtersets := Sets(sets.value));
    }
    r := ValidateOne(filterSet);
  }

  method ParseQueryFilters(schema: map<string, ObjectType>, t: ObjectType, ss: seq<SetInput>)
    returns (r: Option<seq<FilterSet>>)
    ensures r == AcceptedAll(schema, t, ss)
    decreases ss, 0
  {
    var sets: seq<FilterSet> := [];
    assert ss[0..] == ss;
    ghost var all := AcceptedAll(schema, t, ss);
    assert all.Some? ==> [] + all.value == all.value;
    for i := 0 to |ss|
      invariant AcceptedAll(schema, t, ss) ==
                  var rest := AcceptedAll(schema, t, ss[i..]); if rest.None? then None else Some(sets + rest.value)
    {
      assert ss[i..][1..] == ss[i + 1..];
      AcceptedStep(schema, t, ss[i..]);
      var s := ParseQueryFilter(schema, t, ss[i]);
      if s.None? {
        return None;
      }
      ghost var rest := AcceptedAll(schema, t, ss[i + 1..]);
      assert rest.Some? ==> sets + ([s.value] + rest.value) == sets + [s.value] + rest.value;
      sets := sets + [s.value];
    }
    assert ss[|ss|..] == [] && sets + [] == sets;
    r := Some(sets);
  }

  // ---------------------------------------------------------------- what is accepted

  lemma {:induction false} ReadFiltersName(schema: map<string, ObjectType>, t: ObjectType, fs: seq<FilterInput>)
    requires ReadFilters(schema, t, fs).Some?
    ensures forall f :: f in ReadFilters(schema, t, fs).value ==> NamesField(schema, t, f)
    decreases fs
  {
    if fs != [] {
      ReadFiltersName(schema, t, fs[..|fs| - 1]);
      var f := ReadFilter(schema, t, fs[|fs| - 1]).value;
      assert f.path[1..] == FieldPath(fs[|fs| - 1].field)[..|FieldPath(fs[|fs| - 1].field)| - 1];
    }
  }

  /** Every filter of an accepted tree names a field of the type its path leads to. */
  lemma {:induction false} AcceptedNamesFields(
      schema: map<string, ObjectType>, t: ObjectType, s: SetInput, p: Filter -> bool)
    requires Accepted(schema, t, s).Some? && forall f :: NamesField(schema, t, f) ==> p(f)
    ensures ForFilters(Accepted(schema, t, s).value, p)
    decreases s, 1
  {
    if s.filters.InputFilters? {
      ReadFiltersName(schema, t, s.filters.list);
    }
    if s.filtersets.InputSets? {
      AllAcceptedNameFields(schema, t, s.filtersets.list, p);
    }
  }

  lemma {:induction false} AllAcceptedNameFields(
      schema: map<string, ObjectType>, t: ObjectType, ss: seq<SetInput>, p: Filter -> bool)
    requires AcceptedAll(schema, t, ss).Some? && forall f :: NamesField(schema, t, f) ==> p(f)
    ensures ForAllFilters(AcceptedAll(schema, t, ss).value, p)
    decreases ss, 0
  {
    if ss != [] {
      AcceptedStep(schema, t, ss);
      AcceptedNamesFields(schema, t, ss[0], p);
      AllAcceptedNameFields(schema, t, ss[1..], p);
      assert AcceptedAll(schema, t, ss).value[1..] == AcceptedAll(schema, t, ss[1..]).value;
    }
  }

  /** An accepted tree without empty lists is one the compiler takes, and its filters name fields of the schema. */
  lemma AcceptedIsWellFormed(schema: map<string, ObjectType>, t: ObjectType, s: SetInput)
    requires Accepted(schema, t, s).Some? && NoEmptyList(ReadSet(schema, t, s).value)
    ensures WellFormed(Accepted(schema, t, s).value)
    ensures ForFilters(Accepted(schema, t, s).value, (f: Filter) => NamesField(schema, t, f))
  {
    ValidatedIsWellFormed(ReadSet(schema, t, s).value);
    AcceptedNamesFields(schema, t, s, (f: Filter) => NamesField(schema, t, f));
  }

  // Every filter of the argument satisfies p.
  predicate ForInputs(s: SetInput, p: FilterInput -> bool)
    decreases s, 1
  {
    (s.filters.InputFilters? ==> forall f :: f in s.filters.list ==> p(f)) &&
    (s.filtersets.InputSets? ==> ForAllInputs(s.filtersets.list, p))
  }

  predicate ForAllInputs(ss: seq<SetInput>, p: FilterInput -> bool)
    decreases ss, 0
  {
    ss == [] || (ForInputs(ss[0], p) && ForAllInputs(ss[1..], p))
  }

  /** The last name of a dotted field is a scalar of the type the names before it lead to. */
  predicate EndsInScalar(schema: map<string, ObjectType>, t: ObjectType, f: FilterInput) {
    var names := FieldPath(f.field);
    names != [] && Follow(schema, t, names[..|names| - 1]).Some? &&
    IsScalar(Follow(schema, t, names[..|names| - 1]).value, names[|names| - 1])
  }

  function EndsInScalarOver(schema: map<string, ObjectType>, t: ObjectType): FilterInput -> bool {
    (f: FilterInput) => EndsInScalar(schema, t, f)
  }

  function NamesColumnOver(schema: map<string, ObjectType>, t: ObjectType): Filter -> bool {
    (f: Filter) => NamesColumn(schema, t, f)
  }

  /** A question about a filter as it is read is one about the filter as it is written. */
  ghost predicate AsksSame(
    schema: map<string, ObjectType>, t: ObjectType, p: Filter -> bool, p': FilterInput -> bool)
  {
    forall g: FilterInput :: ReadFilter(schema, t, g).Some? ==> (p(ReadFilter(schema, t, g).value) <==> p'(g))
  }

  lemma {:induction false} ReadFiltersAsk(
      schema: map<string, ObjectType>, t: ObjectType, fs: seq<FilterInput>, p: Filter -> bool, p': FilterInput -> bool)
    requires ReadFilters(schema, t, fs).Some? && AsksSame(schema, t, p, p')
    ensures (forall f :: f in ReadFilters(schema, t, fs).value ==> p(f)) <==> forall g :: g in fs ==> p'(g)
    decreases fs
  {
    if fs != [] {
      var init, last := fs[..|fs| - 1], fs[|fs| - 1];
      ReadFiltersAsk(schema, t, init, p, p');
      var f := ReadFilter(schema, t, last).value;
      assert p(f) <==> p'(last);
      assert forall g :: g in fs <==> g in init || g == last;
      assert forall g :: g in ReadFilters(schema, t, fs).value <==> g in ReadFilters(schema, t, init).value || g == f;
    }
  }

  lemma {:induction false} AcceptedAsks(
      schema: map<string, ObjectType>, t: ObjectType, s: SetInput, p: Filter -> bool, p': FilterInput -> bool)
    requires Accepted(schema, t, s).Some? && AsksSame(schema, t, p, p')
    ensures ForFilters(Accepted(schema, t, s).value, p) <==> ForInputs(s, p')
    decreases s, 1
  {
    if s.filters.InputFilters? {
      ReadFiltersAsk(schema, t, s.filters.list, p, p');
    }
    if s.filtersets.InputSets? {
      AllAcceptedAsk(schema, t, s.filtersets.list, p, p');
    }
  }

  lemma {:induction false} AllAcceptedAsk(
      schema: map<string, ObjectType>, t: ObjectType, ss: seq<SetInput>, p: Filter -> bool, p': FilterInput -> bool)
    requires AcceptedAll(schema, t, ss).Some? && AsksSame(schema, t, p, p')
    ensures ForAllFilters(AcceptedAll(schema, t, ss).value, p) <==> ForAllInputs(ss, p')
    decreases ss, 0
  {
    if ss != [] {
      AcceptedStep(schema, t, ss);
      AcceptedAsks(schema, t, ss[0], p, p');
      AllAcceptedAsk(schema, t, ss[1..], p, p');
      assert AcceptedAll(schema, t, ss).value[1..] == AcceptedAll(schema, t, ss[1..]).value;
    }
  }

  /** The filters of an accepted tree name columns exactly when the last name of every field is a scalar. */
  lemma AcceptedNamesColumnsIff(schema: map<string, ObjectType>, t: ObjectType, s: SetInput)
    requires Accepted(schema, t, s).Some?
    ensures ForFilters(Accepted(schema, t, s).value, NamesColumnOver(schema, t)) <==>
              ForInputs(s, EndsInScalarOver(schema, t))
  {
    forall g: FilterInput | ReadFilter(schema, t, g).Some?
      ensures NamesColumn(schema, t, ReadFilter(schema, t, g).value) <==> EndsInScalar(schema, t, g)
    {
      assert ReadFilter(schema, t, g).value.path[1..] == FieldPath(g.field)[..|FieldPath(g.field)| - 1];
    }
    AcceptedAsks(schema, t, s, NamesColumnOver(schema, t), EndsInScalarOver(schema, t));
  }

  // ---------------------------------------------------------------- which arguments are accepted

  /** A relationship of a type, and the type it relates to. */
  predicate LeadsTo(schema: map<string, ObjectType>, from: ObjectType, field: string, to: ObjectType) {
    var d := Definition(from, field);
    d.Some? && d.value.kind.Relationship? && d.value.kind.to in schema && to == schema[d.value.kind.to]
  }

  /** From type to type along relationships the schema defines. */
  ghost predicate IsWalk(schema: map<string, ObjectType>, path: seq<string>, types: seq<ObjectType>) {
    |types| == |path| + 1 && forall i :: 0 <= i < |path| ==> LeadsTo(schema, types[i], path[i], types[i + 1])
  }

  ghost predicate WalksTo(schema: map<string, ObjectType>, t: ObjectType, path: seq<string>, to: ObjectType) {
    exists types: seq<ObjectType> :: IsWalk(schema, path, types) && types[0] == t && types[|path|] == to
  }

  lemma WalkSnoc(
      schema: map<string, ObjectType>, t: ObjectType, path: seq<string>, last: ObjectType, field: string,
      to: ObjectType)
    requires WalksTo(schema, t, path, last) && LeadsTo(schema, last, field, to)
    ensures WalksTo(schema, t, path + [field], to)
  {
    var types: seq<ObjectType> :| IsWalk(schema, path, types) && types[0] == t && types[|path|] == last;
    var more := types + [to];
    forall i | 0 <= i < |path + [field]|
      ensures LeadsTo(schema, more[i], (path + [field])[i], more[i + 1])
    {
      if i < |path| {
        assert more[i] == types[i] && more[i + 1] == types[i + 1];
      }
    }
    assert IsWalk(schema, path + [field], more);
  }

  lemma {:induction false} FollowIff(schema: map<string, ObjectType>, t: ObjectType, path: seq<string>, to: ObjectType)
    ensures Follow(schema, t, path) == Some(to) <==> WalksTo(schema, t, path, to)
    decreases |path|
  {
    if path == [] {
      assert IsWalk(schema, path, [t]);
    } else {
      var init, field := path[..|path| - 1], path[|path| - 1];
      if Follow(schema, t, path) == Some(to) {
        FollowIff(schema, t, init, Follow(schema, t, init).value);
        WalkSnoc(schema, t, init, Follow(schema, t, init).value, field, to);
        assert init + [field] == path;
      }
      if WalksTo(schema, t, path, to) {
        var types: seq<ObjectType> :| IsWalk(schema, path, types) && types[0] == t && types[|path|] == to;
        WalkInit(schema, path, types);
        FollowIff(schema, t, init, types[|init|]);
      }
    }
  }

  lemma WalkInit(schema: map<string, ObjectType>, path: seq<string>, types: seq<ObjectType>)
    requires path != [] && IsWalk(schema, path, types)
    ensures WalksTo(schema, types[0], path[..|path| - 1], types[|path| - 1])
    ensures LeadsTo(schema, types[|path| - 1], path[|path| - 1], types[|path|])
  {
    assert IsWalk(schema, path[..|path| - 1], types[..|path|]);
  }

  /** The names of a filter but the last lead along relationships to a type that defines the last. */
  ghost predicate IsFieldOf(schema: map<string, ObjectType>, t: ObjectType, g: FilterInput) {
    var names := FieldPath(g.field);
    names != [] &&
    exists to, d :: WalksTo(schema, t, names[..|names| - 1], to) && d in to.fields && d.name == names[|names| - 1]
  }

  lemma ReadIff(schema: map<string, ObjectType>, t: ObjectType, g: FilterInput)
    ensures ReadFilter(schema, t, g).Some? <==> IsFieldOf(schema, t, g)
  {
    var names := FieldPath(g.field);
    if names != [] {
      var up, last := names[..|names| - 1], names[|names| - 1];
      forall to
        ensures Follow(schema, t, up) == Some(to) <==> WalksTo(schema, t, up, to)
      {
        FollowIff(schema, t, up, to);
      }
      if ReadFilter(schema, t, g).Some? {
        var to := Follow(schema, t, up).value;
        assert WalksTo(schema, t, up, to) && Definition(to, last).value in to.fields;
      }
    }
  }

  lemma {:induction false} ReadAllIff(schema: map<string, ObjectType>, t: ObjectType, gs: seq<FilterInput>)
    ensures ReadFilters(schema, t, gs).Some? <==> forall g :: g in gs ==> IsFieldOf(schema, t, g)
    ensures ReadFilters(schema, t, gs).Some? ==> |ReadFilters(schema, t, gs).value| == |gs|
    decreases gs
  {
    if gs != [] {
      var init, last := gs[..|gs| - 1], gs[|gs| - 1];
      ReadAllIff(schema, t, init);
      ReadIff(schema, t, last);
      assert forall g :: g in gs <==> g in init || g == last;
    }
  }

  /**
   A set of the argument is in order: it has filters or inner sets but not both, each filter names a field, each inner
   set is in order, and there is an operator when there are several members.
   */
  ghost predicate InOrder(schema: map<string, ObjectType>, t: ObjectType, s: SetInput)
    decreases s, 1
  {
    match (s.filters, s.filtersets)
    case (InputFilters(gs), NoInputSets) =>
      (forall g :: g in gs ==> IsFieldOf(schema, t, g)) && (|gs| > 1 ==> s.op.Some?)
    case (NoInputFilters, InputSets(ss)) => AllInOrder(schema, t, s.filtersets.list) && (|ss| > 1 ==> s.op.Some?)
    case _ => false
  }

  ghost predicate AllInOrder(schema: map<string, ObjectType>, t: ObjectType, ss: seq<SetInput>)
    decreases ss, 0
  {
    ss == [] || (InOrder(schema, t, ss[0]) && AllInOrder(schema, t, ss[1..]))
  }

  /** An argument is accepted iff it is in order throughout. */
  lemma {:induction false} AcceptedIff(schema: map<string, ObjectType>, t: ObjectType, s: SetInput)
    ensures Accepted(schema, t, s).Some? <==> InOrder(schema, t, s)
    decreases s, 1
  {
    if s.filters.InputFilters? {
      ReadAllIff(schema, t, s.filters.list);
    }
    if s.filtersets.InputSets? {
      AllAcceptedIff(schema, t, s.filtersets.list);
    }
  }

  lemma {:induction false} AllAcceptedIff(schema: map<string, ObjectType>, t: ObjectType, ss: seq<SetInput>)
    ensures AcceptedAll(schema, t, ss).Some? <==> AllInOrder(schema, t, ss)
    ensures ReadSets(schema, t, ss).Some? ==> |ReadSets(schema, t, ss).value| == |ss|
    ensures AcceptedAll(schema, t, ss).Some? ==> |AcceptedAll(schema, t, ss).value| == |ss|
    decreases ss, 0
  {
    if ss != [] {
      AcceptedStep(schema, t, ss);
      AcceptedIff(schema, t, ss[0]);
      AllAcceptedIff(schema, t, ss[1..]);
    }
  }

  // ---------------------------------------------------------------- which arguments can be bound

  /** One value can be bound: texts and truth values as they are, the other types when the text is one of theirs. */
  predicate TextBinds(fm: Formats, typeName: string, text: string) {
    typeName == "String" || typeName == "Boolean" ||
    (typeName == "Long" && fm(TLong, text)) || (typeName == "Int" && fm(TInt, text)) ||
    (typeName == "ID" && fm(TID, text)) || (typeName == "Float" && fm(TFloat, text)) ||
    (typeName == "Short" && fm(TShort, text)) || (typeName == "Byte" && fm(TByte, text)) ||
    (typeName == "Timestamp" && fm(TTimestamp, text)) || (typeName == "Date" && fm(TDate, text)) ||
    (typeName == "Time" && fm(TTime, text))
  }

  /** A list can be bound: texts, and whole or floating numbers, without NULL. */
  predicate ListBinds(typeName: string, vs: seq<Value>) {
    typeName == "String" || (typeName in {"Long", "Int", "ID", "Float"} && Null !in vs)
  }

  /** The value of a filter can be bound by the type of the field it names; a relationship has none. */
  predicate InputBinds(fm: Formats, schema: map<string, ObjectType>, t: ObjectType, g: FilterInput) {
    EndsInScalar(schema, t, g) &&
    var names := FieldPath(g.field);
    var d := Definition(Follow(schema, t, names[..|names| - 1]).value, names[|names| - 1]).value;
    match g.value
    case One(v) => v.Val? && TextBinds(fm, d.kind.typeName, v.text)
    case Many(vs) => ListBinds(d.kind.typeName, vs)
  }

  lemma TextBindsIff(fm: Formats, d: FieldDefinition, f: Filter)
    requires f.fieldType == TypeOf(d) && f.value.One?
    ensures Bindable(fm, f) <==> d.kind.Scalar? && f.value.v.Val? && TextBinds(fm, d.kind.typeName, f.value.v.text)
  {
    if d.kind.Scalar? {
      assert "Byte"[0] != "Long"[0] && "Date"[0] != "Long"[0] && "Date"[0] != "Byte"[0] && "Short"[0] != "Float"[0];
      assert "Time"[0] != "Long"[0] && "Time"[0] != "Byte"[0] && "Time"[0] != "Date"[0];
    }
  }

  lemma ListBindsIff(fm: Formats, d: FieldDefinition, f: Filter)
    requires f.fieldType == TypeOf(d) && f.value.Many?
    ensures Bindable(fm, f) <==> d.kind.Scalar? && ListBinds(d.kind.typeName, f.value.vs)
  {
  }

  /** The values of an accepted argument can all be bound iff each can by the type of the field it is compared with. */
  lemma AcceptedBindsIff(fm: Formats, schema: map<string, ObjectType>, t: ObjectType, s: SetInput)
    requires Accepted(schema, t, s).Some?
    ensures ForFilters(Accepted(schema, t, s).value, (f: Filter) => Bindable(fm, f)) <==>
              ForInputs(s, (g: FilterInput) => InputBinds(fm, schema, t, g))
  {
    forall g: FilterInput | ReadFilter(schema, t, g).Some?
      ensures Bindable(fm, ReadFilter(schema, t, g).value) <==> InputBinds(fm, schema, t, g)
    {
      var names := FieldPath(g.field);
      var d := Definition(Follow(schema, t, names[..|names| - 1]).value, names[|names| - 1]).value;
      match g.value
      case One(v) => TextBindsIff(fm, d, ReadFilter(schema, t, g).value);
      case Many(vs) => ListBindsIff(fm, d, ReadFilter(schema, t, g).value);
    }
    AcceptedAsks(schema, t, s, (f: Filter) => Bindable(fm, f), (g: FilterInput) => InputBinds(fm, schema, t, g));
  }

  // ---------------------------------------------------------------- what an argument asks

  function JoinDots(parts: seq<string>): string {
    if parts == [] then "" else if |parts| == 1 then parts[0] else parts[0] + "." + JoinDots(parts[1..])
  }

  predicate OnlyDots(s: string) {
    forall c :: c in s ==> c == '.'
  }

  /** The names of a dotted field: put together with dots they are its text, up to dots at the end. */
  predicate AreNamesOf(parts: seq<string>, text: string) {
    (forall part :: part in parts ==> '.' !in part) &&
    ('.' in text ==> parts == [] || parts[|parts| - 1] != "") && (parts == [] ==> text != "") &&
    |JoinDots(parts)| <= |text| && text[..|JoinDots(parts)|] == JoinDots(parts) && OnlyDots(text[|JoinDots(parts)|..])
  }

  lemma {:induction false} PartsJoin(s: string)
    ensures JoinDots(Parts(s)) == s && forall part :: part in Parts(s) ==> '.' !in part
  {
    if s != "" {
      PartsJoin(s[1..]);
      var rest := Parts(s[1..]);
      if s[0] == '.' {
        assert ([""] + rest)[1..] == rest;
      } else {
        var first := [s[0]] + rest[0];
        assert Parts(s) == [first] + rest[1..] && ([first] + rest[1..])[1..] == rest[1..];
        assert rest == [rest[0]] + rest[1..];
      }
    }
  }

  lemma {:induction false} JoinSnoc(parts: seq<string>, last: string)
    requires parts != []
    ensures JoinDots(parts + [last]) == JoinDots(parts) + "." + last
  {
    if |parts| > 1 {
      assert (parts + [last])[1..] == parts[1..] + [last];
      JoinSnoc(parts[1..], last);
    } else {
      assert (parts + [last])[1..] == [last];
    }
  }

  lemma {:induction false} DroppedAreDots(parts: seq<string>)
    ensures var kept := DropEmptyEnd(parts);
            kept <= parts && (kept == [] || kept[|kept| - 1] != "") &&
            |JoinDots(kept)| <= |JoinDots(parts)| && JoinDots(parts)[..|JoinDots(kept)|] == JoinDots(kept) &&
            OnlyDots(JoinDots(parts)[|JoinDots(kept)|..])
    decreases parts
  {
    if parts != [] && parts[|parts| - 1] == "" {
      var init := parts[..|parts| - 1];
      DroppedAreDots(init);
      assert parts == init + [""];
      if init != [] {
        JoinSnoc(init, "");
        var k := |JoinDots(DropEmptyEnd(init))|;
        assert JoinDots(parts) == JoinDots(init) + "." && JoinDots(parts)[k..] == JoinDots(init)[k..] + ".";
      }
    }
  }

  lemma {:induction false} FirstPart(a: string, rest: string)
    requires '.' !in a
    ensures Parts(a + "." + rest) == [a] + Parts(rest)
  {
    var s := a + "." + rest;
    if a == "" {
      assert s[0] == '.' && s[1..] == rest;
    } else {
      assert s[1..] == a[1..] + "." + rest;
      FirstPart(a[1..], rest);
      assert ([a[1..]] + Parts(rest))[1..] == Parts(rest) && [a[0]] + a[1..] == a;
    }
  }

  lemma {:induction false} PartsOfJoined(parts: seq<string>)
    requires parts != [] && forall part :: part in parts ==> '.' !in part
    ensures Parts(JoinDots(parts)) == parts
  {
    assert parts[0] in parts;
    if |parts| == 1 {
      OnePart(parts[0]);
    } else {
      PartsOfJoined(parts[1..]);
      FirstPart(parts[0], JoinDots(parts[1..]));
    }
  }

  /** The text of names whose last one is not empty does not end in a dot. */
  lemma {:induction false} JoinedEnds(parts: seq<string>)
    requires parts != [] && parts[|parts| - 1] != "" && '.' !in parts[|parts| - 1]
    ensures JoinDots(parts) != "" && JoinDots(parts)[|JoinDots(parts)| - 1] != '.'
  {
    if |parts| > 1 {
      JoinedEnds(parts[1..]);
    }
  }

  /** Names of a text are no shorter, put together, than any other names of it. */
  lemma NamesReachAsFar(parts: seq<string>, others: seq<string>, text: string)
    requires AreNamesOf(parts, text) && AreNamesOf(others, text)
    ensures |JoinDots(others)| <= |JoinDots(parts)|
  {
    var n, m := |JoinDots(parts)|, |JoinDots(others)|;
    if n < m {
      assert text[n..][m - 1 - n] in text[n..] && text[m - 1] == text[n..][m - 1 - n] == '.';
      assert '.' in text && others != [];
      assert others[|others| - 1] in others;
      JoinedEnds(others);
    }
  }

  /** Splitting finds the names of a dotted field, and there are no others. */
  lemma FieldPathIff(parts: seq<string>, text: string)
    ensures parts == FieldPath(text) <==> AreNamesOf(parts, text)
  {
    var path := FieldPath(text);
    PartsJoin(text);
    DroppedAreDots(Parts(text));
    assert AreNamesOf(path, text);
    if AreNamesOf(parts, text) {
      NamesReachAsFar(parts, path, text);
      NamesReachAsFar(path, parts, text);
      assert JoinDots(parts) == JoinDots(path);
      if parts == [] || path == [] {
        NoNames(parts, path, text);
      } else {
        PartsOfJoined(parts);
        PartsOfJoined(path);
      }
    }
  }

  lemma NoNames(parts: seq<string>, others: seq<string>, text: string)
    requires AreNamesOf(parts, text) && AreNamesOf(others, text) && JoinDots(parts) == JoinDots(others)
    requires parts == [] || others == []
    ensures parts == others
  {
    assert text[0..] == text && '.' in text by {
      assert OnlyDots(text[0..]) && text[0] in text;
    }
    if parts != [] {
      assert parts[|parts| - 1] in parts;
      JoinedEnds(parts);
    }
    if others != [] {
      assert others[|others| - 1] in others;
      JoinedEnds(others);
    }
  }

  /**
   What one written filter asks in an environment: the column its last name stands for in the table the other names lead
   to compares with its value, or is among its values.
   */
  function FilterAsks(g: FilterInput, origin: Path, co: Collation, env: Env): Truth {
    var names := FieldPath(g.field);
    if names == [] then Unknown
    else
      var a := env(Column(origin + names[..|names| - 1], names[|names| - 1]));
      var t := match g.value
        case One(v) => if a.Null? || v.Null? then Unknown else Truly(Relation(co, g.op, a.text, v.text))
        case Many(vs) => AnyEqual(a, vs);
      if g.negation then Not3(t) else t
  }

  function FiltersAsk(gs: seq<FilterInput>, origin: Path, co: Collation, env: Env): seq<Truth> {
    seq(|gs|, i requires 0 <= i < |gs| => FilterAsks(gs[i], origin, co, env))
  }

  /** What a written set asks: its members joined by its operator, one member by itself, then negated if it says so. */
  function InputAsks(s: SetInput, origin: Path, co: Collation, env: Env): Truth
    decreases s, 1
  {
    var members :=
      if s.filters.InputFilters? then FiltersAsk(s.filters.list, origin, co, env)
      else if s.filtersets.InputSets? then InputsAsk(s.filtersets.list, origin, co, env)
      else [];
    var t := if |members| == 1 then members[0] else if s.op.Some? then Fold(s.op.value, members) else Yes;
    if s.negation then Not3(t) else t
  }

  function InputsAsk(ss: seq<SetInput>, origin: Path, co: Collation, env: Env): (r: seq<Truth>)
    ensures |r| == |ss|
    decreases ss, 0
  {
    if ss == [] then [] else [InputAsks(ss[0], origin, co, env)] + InputsAsk(ss[1..], origin, co, env)
  }

  lemma ReadFilterMeans(
      schema: map<string, ObjectType>, t: ObjectType, g: FilterInput, origin: Path, co: Collation, env: Env)
    requires ReadFilter(schema, t, g).Some?
    ensures FilterMeaning(ReadFilter(schema, t, g).value, origin, co, env) == FilterAsks(g, origin, co, env)
  {
    var f, names := ReadFilter(schema, t, g).value, FieldPath(g.field);
    assert f.path[1..] == names[..|names| - 1];
    assert |f.path| <= 1 ==> origin + names[..|names| - 1] == origin;
  }

  lemma {:induction false} ReadOneByOne(schema: map<string, ObjectType>, t: ObjectType, gs: seq<FilterInput>)
    requires ReadFilters(schema, t, gs).Some?
    ensures |ReadFilters(schema, t, gs).value| == |gs|
    ensures forall i :: 0 <= i < |gs| ==> ReadFilter(schema, t, gs[i]) == Some(ReadFilters(schema, t, gs).value[i])
    decreases gs
  {
    if gs != [] {
      ReadOneByOne(schema, t, gs[..|gs| - 1]);
    }
  }

  lemma ReadFiltersMean(
      schema: map<string, ObjectType>, t: ObjectType, gs: seq<FilterInput>, origin: Path, co: Collation, env: Env)
    requires ReadFilters(schema, t, gs).Some?
    ensures |ReadFilters(schema, t, gs).value| == |gs|
    ensures FilterMeanings(ReadFilters(schema, t, gs).value, origin, co, env) == FiltersAsk(gs, origin, co, env)
  {
    ReadOneByOne(schema, t, gs);
    forall i | 0 <= i < |gs|
      ensures FilterMeaning(ReadFilters(schema, t, gs).value[i], origin, co, env) == FilterAsks(gs[i], origin, co, env)
    {
      ReadFilterMeans(schema, t, gs[i], origin, co, env);
    }
  }

  /**
   Reading and validating keep the meaning of an argument: in every environment the accepted tree has the three-valued
   truth of what is written, filters, operators and both kinds of `not`.
   */
  lemma {:induction false} AcceptedMeansInput(
      schema: map<string, ObjectType>, t: ObjectType, s: SetInput, origin: Path, co: Collation, env: Env)
    requires Accepted(schema, t, s).Some? && GoodInput(s)
    ensures Meaning(Accepted(schema, t, s).value, origin, co, env) == InputAsks(s, origin, co, env)
    decreases s, 1
  {
    if s.filters.InputFilters? {
      ReadFiltersMean(schema, t, s.filters.list, origin, co, env);
    } else {
      AllAcceptedMeanInput(schema, t, s.filtersets.list, origin, co, env);
    }
  }

  lemma {:induction false} AllAcceptedMeanInput(
      schema: map<string, ObjectType>, t: ObjectType, ss: seq<SetInput>, origin: Path, co: Collation, env: Env)
    requires AcceptedAll(schema, t, ss).Some? && GoodInputs(ss)
    ensures |AcceptedAll(schema, t, ss).value| == |ss|
    ensures Meanings(AcceptedAll(schema, t, ss).value, origin, co, env) == InputsAsk(ss, origin, co, env)
    decreases ss, 0
  {
    if ss != [] {
      AcceptedStep(schema, t, ss);
      AcceptedMeansInput(schema, t, ss[0], origin, co, env);
      AllAcceptedMeanInput(schema, t, ss[1..], origin, co, env);
      assert AcceptedAll(schema, t, ss).value[1..] == AcceptedAll(schema, t, ss[1..]).value;
    }
  }

  /** A list stands exactly under IN, and no list of the argument is empty. */
  predicate GoodInput(s: SetInput)
    decreases s, 1
  {
    (s.filters.InputFilters? ==>
       s.filters.list != [] &&
       forall f :: f in s.filters.list ==> (f.op.IN? <==> f.value.Many?) && (f.value.Many? ==> f.value.vs != [])) &&
    (s.filtersets.InputSets? ==> s.filtersets.list != [] && GoodInputs(s.filtersets.list))
  }

  predicate GoodInputs(ss: seq<SetInput>)
    decreases ss, 0
  {
    ss == [] || (GoodInput(ss[0]) && GoodInputs(ss[1..]))
  }

  lemma {:induction false} ReadFiltersAreGood(schema: map<string, ObjectType>, t: ObjectType, fs: seq<FilterInput>)
    requires ReadFilters(schema, t, fs).Some?
    requires forall f :: f in fs ==> (f.op.IN? <==> f.value.Many?) && (f.value.Many? ==> f.value.vs != [])
    ensures GoodFilters(ReadFilters(schema, t, fs).value) && |ReadFilters(schema, t, fs).value| == |fs|
    decreases fs
  {
    if fs != [] {
      ReadFiltersAreGood(schema, t, fs[..|fs| - 1]);
      assert fs[|fs| - 1] in fs;
    }
  }

  lemma {:induction false} GoodInputReads(schema: map<string, ObjectType>, t: ObjectType, s: SetInput)
    requires GoodInput(s) && ReadSet(schema, t, s).Some?
    ensures NoEmptyList(ReadSet(schema, t, s).value)
    decreases s, 1
  {
    if s.filters.InputFilters? {
      ReadFiltersAreGood(schema, t, s.filters.list);
    }
    if s.filtersets.InputSets? {
      GoodInputsRead(schema, t, s.filtersets.list);
    }
  }

  lemma {:induction false} GoodInputsRead(schema: map<string, ObjectType>, t: ObjectType, ss: seq<SetInput>)
    requires GoodInputs(ss) && ReadSets(schema, t, ss).Some?
    ensures NoEmptyLists(ReadSets(schema, t, ss).value) && |ReadSets(schema, t, ss).value| == |ss|
    decreases ss, 0
  {
    if ss != [] {
      GoodInputReads(schema, t, ss[0]);
      GoodInputsRead(schema, t, ss[1..]);
      assert ReadSets(schema, t, ss).value[1..] == ReadSets(schema, t, ss[1..]).value;
    }
  }

  /** A name that ends in a dot is read without it. */
  lemma TrailingDotIsDropped(schema: map<string, ObjectType>, t: ObjectType, f: FilterInput, name: string)
    requires name != "" && '.' !in name && f.field == name + "."
    ensures ReadFilter(schema, t, f) == ReadFilter(schema, t, f.(field := name))
  {
    PartsOf(name);
    assert '.' in f.field by {
      assert f.field[|name|] == '.';
    }
    assert DropEmptyEnd([name, ""]) == [name] by {
      assert [name, ""][..1] == [name];
    }
  }

  lemma {:induction false} PartsOf(name: string)
    requires '.' !in name
    ensures Parts(name + ".") == [name, ""]
  {
    if name == "" {
      assert (name + ".")[1..] == "";
    } else {
      assert (name + ".")[1..] == name[1..] + ".";
      PartsOf(name[1..]);
      assert [name[1..], ""][1..] == [""] && [name[0]] + name[1..] == name;
    }
  }

  lemma {:induction false} TwoParts(a: string, b: string)
    requires '.' !in a && '.' !in b
    ensures Parts(a + "." + b) == [a, b]
  {
    var s := a + "." + b;
    if a == "" {
      assert s[0] == '.' && s[1..] == b;
      OnePart(b);
    } else {
      assert s[1..] == a[1..] + "." + b;
      TwoParts(a[1..], b);
      assert [a[1..], b][1..] == [b] && [a[0]] + a[1..] == a;
    }
  }

  lemma {:induction false} OnePart(b: string)
    requires '.' !in b
    ensures Parts(b) == [b]
  {
    if b != "" {
      OnePart(b[1..]);
      assert [b[1..]][1..] == [] && [b[0]] + b[1..] == b;
    }
  }

  // ---------------------------------------------------------------- a dotted filter on a nested selection

  const Orders := ObjectType("Order", [
    FieldDefinition("name", Scalar("String"), false),
    FieldDefinition("customer", Relationship("Customer", "customerId", "id", false, None), false)])

  const Customers := ObjectType("Customer", [
    FieldDefinition("name", Scalar("String"), false),
    FieldDefinition("orders", Relationship("Order", "id", "customerId", true, None), false)])

  const Shop := map["Order" := Orders, "Customer" := Customers]

  /** `orders(filter: {field: "customer.name", op: EQ, value: "Ann"})` */
  const ByCustomer := FilterInput("customer.name", EQ, One(Val("Ann")), false)

  const CustomerIsAnn := Filter(["Order", "customer"], "name", TString, EQ, One(Val("Ann")), false)

  lemma CustomerNamePath()
    ensures FieldPath("customer.name") == ["customer", "name"]
  {
    var name := "customer" + "." + "name";
    assert name == "customer.name" && name[8] == '.';
    TwoParts("customer", "name");
  }

  lemma CustomerReached()
    ensures Definition(Orders, "customer") == Some(Orders.fields[1])
    ensures Follow(Shop, Orders, ["customer"]) == Some(Customers)
    ensures Definition(Customers, "name") == Some(Customers.fields[0])
  {
    var path := ["customer"];
    assert Orders.fields[1..] == [Orders.fields[1]] && Orders.fields[0].name == "name" && |"name"| < |"customer"|;
    assert path[..0] == [] && path[0] == "customer";
    assert Target(Shop, Orders, "customer") == Some(Customers);
    assert Follow(Shop, Orders, path[..0]) == Some(Orders);
  }

  lemma CustomerNameReads()
    ensures ReadFilter(Shop, Orders, ByCustomer) == Some(CustomerIsAnn)
  {
    CustomerNamePath();
    CustomerReached();
    var names := ["customer", "name"];
    assert names[..1] == ["customer"] && ["Order"] + names[..1] == ["Order", "customer"];
    assert TypeOf(Customers.fields[0]) == TString;
  }

  lemma OneFilterAccepted(schema: map<string, ObjectType>, t: ObjectType, f: FilterInput, read: Filter)
    requires ReadFilter(schema, t, f) == Some(read)
    ensures Accepted(schema, t, SetInput(InputFilters([f]), NoInputSets, None, false)) ==
              Some(FilterSet(Filters([read]), NoSets, None, false))
  {
    assert [f][..0] == [] && [] + [read] == [read];
    assert ReadFilters(schema, t, [f][..0]) == Some([]);
    assert ReadFilters(schema, t, [f]) == Some([read]);
  }

  /**
   The concrete case: a filter on the selected orders of a customer asks for the customer's name and is accepted, but
   its condition compares the name of the order itself. An order called Ann of a customer called Bob is selected.
   */
  lemma DottedNestedFilterMisread(co: Collation)
    ensures var input := SetInput(InputFilters([ByCustomer]), NoInputSets, None, false);
            var s := FilterSet(Filters([CustomerIsAnn]), NoSets, None, false);
            Accepted(Shop, Orders, input) == Some(s) && SelectsAnnOfBob(s, co)
  {
    CustomerNameReads();
    OneFilterAccepted(Shop, Orders, ByCustomer, CustomerIsAnn);
    AnnOfBobSelected(co);
  }

  predicate SelectsAnnOfBob(s: FilterSet, co: Collation) {
    var orders := ["Customer", "orders"];
    var name, customerName := Column(orders, "name"), Column(orders + ["customer"], "name");
    var row := (c: Column) => if c == name then Val("Ann") else if c == customerName then Val("Bob") else Null;
    var e := Compile(s, orders, None);
    e == Emit(Binary(EqualTo, name), [One(Val("Ann"))]) &&
    Eval(e.condition, co, row, e.parameters) == Yes && Meaning(s, orders, co, row) == No
  }

  lemma AnnOfBobSelected(co: Collation)
    ensures SelectsAnnOfBob(FilterSet(Filters([CustomerIsAnn]), NoSets, None, false), co)
  {
    assert CustomerIsAnn.path[1..] == ["customer"];
    assert |["Customer", "orders"] + ["customer"]| == 3;
  }

  // ---------------------------------------------------------------- a filter on a relationship

  /** `Order_query(filter: {field: "customer", op: EQ, value: "Ann"})` */
  const ByRelationship := FilterInput("customer", EQ, One(Val("Ann")), false)

  /** It is accepted, and its condition names a column the table does not have. */
  lemma RelationshipFilterAccepted()
    ensures var read := Filter(["Order"], "customer", TOther, EQ, One(Val("Ann")), false);
            var s := FilterSet(Filters([read]), NoSets, None, false);
            Accepted(Shop, Orders, SetInput(InputFilters([ByRelationship]), NoInputSets, None, false)) == Some(s) &&
            NamesField(Shop, Orders, read) && !NamesColumn(Shop, Orders, read) &&
            Compile(s, ["Order"], None) == Emit(Binary(EqualTo, Column(["Order"], "customer")), [One(Val("Ann"))])
  {
    var names := ["customer"];
    CustomerReached();
    assert FieldPath("customer") == names && names[..0] == [] && ["Order"] + names[..0] == ["Order"];
    var read := Filter(["Order"], "customer", TOther, EQ, One(Val("Ann")), false);
    assert Follow(Shop, Orders, names[..0]) == Some(Orders) && read.path[1..] == [];
    assert ReadFilter(Shop, Orders, ByRelationship) == Some(read);
    OneFilterAccepted(Shop, Orders, ByRelationship, read);
  }
}
