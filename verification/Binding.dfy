/** Binding the variables of a request to the parameters of a named query. */
module Binding {
  import opened Truth
  import opened Lexer

  datatype Variable = Variable(name: string, kind: Option<string>, value: string)

  datatype SlotValue =
    | TextSlot(s: string)
    | IntSlot(n: int)
    | BoolSlot(b: bool)
    | DateSlot(day: int)
    | TimestampSlot(instant: int)

  /** How names are compared and texts converted; a conversion may reject a text. */
  datatype Conversions = Conversions(
    fold: string -> string,
    toInt: string -> Option<int>, toDate: string -> Option<int>, toTimestamp: string -> Option<int>)

  /** String.equalsIgnoreCase */
  predicate SameName(cs: Conversions, a: string, b: string) {
    cs.fold(a) == cs.fold(b)
  }

  function ValueOf(cs: Conversions, v: Variable): Option<SlotValue> {
    if v.kind.None? then Some(TextSlot(v.value))
    else
      var kind := cs.fold(v.kind.value);
      if kind == cs.fold("number") || kind == cs.fold("integer") then
        match cs.toInt(v.value) case Some(n) => Some(IntSlot(n)) case None => None
      else if kind == cs.fold("boolean") then Some(BoolSlot(cs.fold(v.value) == cs.fold("true")))
      else if kind == cs.fold("date") then match cs.toDate(v.value) case Some(d) => Some(DateSlot(d)) case None => None
      else if kind == cs.fold("timestamp") then
        match cs.toTimestamp(v.value) case Some(t) => Some(TimestampSlot(t)) case None => None
      else Some(TextSlot(v.value))
  }

  /** The words for kinds stay apart when case is ignored. */
  predicate KindsApart(cs: Conversions) {
    !SameName(cs, "number", "boolean") && !SameName(cs, "number", "date") && !SameName(cs, "number", "timestamp") &&
    !SameName(cs, "integer", "boolean") && !SameName(cs, "integer", "date") && !SameName(cs, "integer", "timestamp") &&
    !SameName(cs, "boolean", "date") && !SameName(cs, "boolean", "timestamp") && !SameName(cs, "date", "timestamp")
  }

  predicate IsKind(cs: Conversions, v: Variable, word: string) {
    v.kind.Some? && SameName(cs, v.kind.value, word)
  }

  /** A variable is converted by its kind, ignoring case; without a kind, or with an unknown one, it is text. */
  lemma ValueIff(cs: Conversions, v: Variable)
    requires KindsApart(cs)
    ensures forall n :: ValueOf(cs, v) == Some(IntSlot(n)) <==>
              (IsKind(cs, v, "number") || IsKind(cs, v, "integer")) && cs.toInt(v.value) == Some(n)
    ensures forall b :: ValueOf(cs, v) == Some(BoolSlot(b)) <==>
              IsKind(cs, v, "boolean") && b == SameName(cs, v.value, "true")
    ensures forall d :: ValueOf(cs, v) == Some(DateSlot(d)) <==> IsKind(cs, v, "date") && cs.toDate(v.value) == Some(d)
    ensures forall t :: ValueOf(cs, v) == Some(TimestampSlot(t)) <==>
              IsKind(cs, v, "timestamp") && cs.toTimestamp(v.value) == Some(t)
    ensures forall s :: ValueOf(cs, v) == Some(TextSlot(s)) <==>
              s == v.value && !IsKind(cs, v, "number") && !IsKind(cs, v, "integer") && !IsKind(cs, v, "boolean") &&
              !IsKind(cs, v, "date") && !IsKind(cs, v, "timestamp")
  {
  }

  predicate Mentions(cs: Conversions, names: seq<string>, name: string) {
    cs.fold(name) in seq(|names|, i requires 0 <= i < |names| => cs.fold(names[i]))
  }

  predicate Supplies(cs: Conversions, variables: seq<Variable>, name: string) {
    cs.fold(name) in seq(|variables|, i requires 0 <= i < |variables| => cs.fold(variables[i].name))
  }

  lemma MentionsIff(cs: Conversions, names: seq<string>, name: string)
    ensures Mentions(cs, names, name) <==> exists i :: 0 <= i < |names| && SameName(cs, names[i], name)
  {
    var folds := seq(|names|, i requires 0 <= i < |names| => cs.fold(names[i]));
    if i :| 0 <= i < |names| && SameName(cs, names[i], name) {
      assert folds[i] == cs.fold(name);
    }
  }

  lemma SuppliesSnoc(cs: Conversions, before: seq<Variable>, v: Variable, name: string)
    ensures Supplies(cs, before + [v], name) <==> Supplies(cs, before, name) || SameName(cs, v.name, name)
  {
    var folds := seq(|before|, i requires 0 <= i < |before| => cs.fold(before[i].name));
    var all := before + [v];
    assert seq(|all|, i requires 0 <= i < |all| => cs.fold(all[i].name)) == folds + [cs.fold(v.name)];
  }

  /** The last variable of a name is the one that counts. */
  function LastFor(cs: Conversions, variables: seq<Variable>, name: string): (r: Option<Variable>)
    ensures r.Some? <==> Supplies(cs, variables, name)
    ensures r.Some? ==> r.value in variables && SameName(cs, r.value.name, name)
  {
    if variables == [] then None
    else
      var init, last := variables[..|variables| - 1], variables[|variables| - 1];
      assert variables == init + [last];
      SuppliesSnoc(cs, init, last, name);
      if SameName(cs, last.name, name) then Some(last) else LastFor(cs, init, name)
  }

  lemma {:induction false} LastIsLast(cs: Conversions, variables: seq<Variable>, name: string, i: nat)
    requires i < |variables| && SameName(cs, variables[i].name, name)
    requires forall k :: i < k < |variables| ==> !SameName(cs, variables[k].name, name)
    ensures LastFor(cs, variables, name) == Some(variables[i])
    decreases variables
  {
    if i < |variables| - 1 {
      LastIsLast(cs, variables[..|variables| - 1], name, i);
    }
  }

  datatype BindError =
    | NoVariables | MissingParameters(names: seq<string>) | NotAParameter(name: string) | BadValue(name: string)

  /** The variable can be set: its text converts and the statement has a parameter of its name. */
  predicate Settable(cs: Conversions, names: seq<string>, v: Variable) {
    ValueOf(cs, v).Some? && Mentions(cs, names, v.name)
  }

  /** A statement is bound iff its parameters and the request's variables cover each other. */
  predicate Bindable(cs: Conversions, names: seq<string>, variables: seq<Variable>) {
    names == [] ||
    (variables != [] && (forall n :: n in names ==> Supplies(cs, variables, n)) &&
     forall v :: v in variables ==> Settable(cs, names, v))
  }

  /** The first variable that cannot be set, and why: its text does not convert, or there is no such parameter. */
  ghost predicate FirstFault(cs: Conversions, names: seq<string>, variables: seq<Variable>, e: BindError) {
    exists k :: 0 <= k < |variables| && FaultAt(cs, names, variables, k, e)
  }

  predicate FaultAt(cs: Conversions, names: seq<string>, variables: seq<Variable>, k: nat, e: BindError)
    requires k < |variables|
  {
    (forall v :: v in variables[..k] ==> Settable(cs, names, v)) && !Settable(cs, names, variables[k]) &&
    e == if ValueOf(cs, variables[k]).None? then BadValue(variables[k].name) else NotAParameter(variables[k].name)
  }

  function SlotFor(cs: Conversions, variables: seq<Variable>, name: string): Option<SlotValue> {
    var v := LastFor(cs, variables, name);
    if v.Some? then ValueOf(cs, v.value) else None
  }

  /** Every position has the value of the last variable of its name. */
  predicate Filled(cs: Conversions, names: seq<string>, variables: seq<Variable>, values: seq<Option<SlotValue>>) {
    |values| == |names| &&
    forall i :: 0 <= i < |names| ==> values[i].Some? && values[i] == SlotFor(cs, variables, names[i])
  }

  /** The parameters without a variable, in order. */
  function MissingIn(cs: Conversions, variables: seq<Variable>, names: seq<string>): seq<string> {
    if names == [] then []
    else
      var init, last := names[..|names| - 1], names[|names| - 1];
      MissingIn(cs, variables, init) + if Supplies(cs, variables, last) then [] else [last]
  }

  /** They are listed by the positions that have no variable. */
  lemma {:induction false} MissingInOrder(cs: Conversions, variables: seq<Variable>, names: seq<string>)
    returns (at: seq<nat>)
    ensures |at| == |MissingIn(cs, variables, names)| && forall a, b :: 0 <= a < b < |at| ==> at[a] < at[b]
    ensures forall a :: 0 <= a < |at| ==> at[a] < |names| && names[at[a]] == MissingIn(cs, variables, names)[a]
    ensures forall i: nat :: i in at <==> i < |names| && !Supplies(cs, variables, names[i])
    decreases names
  {
    at := [];
    if names != [] {
      var init := names[..|names| - 1];
      at := MissingInOrder(cs, variables, init);
      if !Supplies(cs, variables, names[|names| - 1]) {
        at := at + [|names| - 1];
      }
    }
  }

  lemma {:induction false} MissingMembers(cs: Conversions, variables: seq<Variable>, names: seq<string>, n: string)
    ensures n in MissingIn(cs, variables, names) <==> n in names && !Supplies(cs, variables, n)
    decreases names
  {
    if names != [] {
      var init, last := names[..|names| - 1], names[|names| - 1];
      assert names == init + [last];
      MissingMembers(cs, variables, init, n);
    }
  }

  lemma MissingIff(cs: Conversions, variables: seq<Variable>, names: seq<string>)
    ensures MissingIn(cs, variables, names) == [] <==> forall n :: n in names ==> Supplies(cs, variables, n)
  {
    var missing := MissingIn(cs, variables, names);
    forall n | n in names
      ensures n in missing <==> !Supplies(cs, variables, n)
    {
      MissingMembers(cs, variables, names, n);
    }
    if missing != [] {
      assert missing[0] in missing;
      MissingMembers(cs, variables, names, missing[0]);
    }
  }

  class NamedPreparedStatement {
    const names: seq<string>
    const slots: array<Option<SlotValue>>

    constructor (names: seq<string>)
      ensures this.names == names && fresh(slots) && slots.Length == |names|
      ensures forall i :: 0 <= i < |names| ==> slots[i] == None
    {
      this.names := names;
      slots := new Option<SlotValue>[|names|](i => None);
    }

    predicate Valid() {
      slots.Length == |names|
    }

    /** The positions of a parameter, from 1; none is an error. */
    method GetParameterIndexes(cs: Conversions, parameter: string) returns (indexes: seq<nat>)
      ensures forall p :: p in indexes <==> 1 <= p <= |names| && SameName(cs, names[p - 1], parameter)
      ensures indexes == [] <==> !Mentions(cs, names, parameter)
    {
      indexes := [];
      for i := 0 to |names|
        invariant forall p :: p in indexes <==> 1 <= p <= i && SameName(cs, names[p - 1], parameter)
      {
        if SameName(cs, names[i], parameter) {
          indexes := indexes + [i + 1];
        }
      }
      MentionsIff(cs, names, parameter);
      if i :| 0 <= i < |names| && SameName(cs, names[i], parameter) {
        assert i + 1 in indexes;
      }
      if indexes != [] {
        assert indexes[0] in indexes;
      }
    }

    /** Every position of the parameter gets the value. */
    method Set(cs: Conversions, parameter: string, value: SlotValue) returns (ok: bool)
      requires Valid()
      modifies slots
      ensures ok <==> Mentions(cs, names, parameter)
      ensures forall i :: 0 <= i < |names| ==>
                slots[i] == if SameName(cs, names[i], parameter) then Some(value) else old(slots[i])
    {
      var indexes := GetParameterIndexes(cs, parameter);
      if indexes == [] {
        MentionsIff(cs, names, parameter);
        return false;
      }
      for k := 0 to |indexes|
        invariant forall i :: 0 <= i < |names| ==>
                    slots[i] == if i + 1 in indexes[..k] then Some(value) else old(slots[i])
      {
        assert indexes[k] in indexes && indexes[..k + 1] == indexes[..k] + [indexes[k]];
        slots[indexes[k] - 1] := Some(value);
      }
      assert indexes[..|indexes|] == indexes;
      ok := true;
    }

    /** The variables are set one after the other; the first that cannot be set stops the binding. */
    method SetAll(cs: Conversions, variables: seq<Variable>) returns (error: Option<BindError>)
      requires Valid()
      modifies slots
      ensures error.None? <==> forall v :: v in variables ==> Settable(cs, names, v)
      ensures error.Some? ==> FirstFault(cs, names, variables, error.value)
      ensures error.None? ==> forall i :: 0 <= i < |names| ==>
                slots[i] == if Supplies(cs, variables, names[i]) then SlotFor(cs, variables, names[i])
                            else old(slots[i])
    {
      for k := 0 to |variables|
        invariant forall v :: v in variables[..k] ==> Settable(cs, names, v)
        invariant forall i :: 0 <= i < |names| ==>
                    slots[i] == if Supplies(cs, variables[..k], names[i]) then SlotFor(cs, variables[..k], names[i])
                                else old(slots[i])
      {
        var v := variables[k];
        assert v in variables;
        ghost var before := variables[..k];
        assert variables[..k + 1] == before + [v] && variables[..k + 1][..k] == before;
        var value := ValueOf(cs, v);
        if value.None? {
          assert FaultAt(cs, names, variables, k, BadValue(v.name));
          return Some(BadValue(v.name));
        }
        var ok := Set(cs, v.name, value.value);
        if !ok {
          assert FaultAt(cs, names, variables, k, NotAParameter(v.name));
          return Some(NotAParameter(v.name));
        }
        forall i | 0 <= i < |names|
          ensures slots[i] == if Supplies(cs, variables[..k + 1], names[i])
                              then SlotFor(cs, variables[..k + 1], names[i])
                              else old(slots[i])
        {
          LastSnoc(cs, before, v, names[i]);
        }
      }
      assert variables[..|variables|] == variables;
      error := None;
    }

    method FindMissing(cs: Conversions, variables: seq<Variable>) returns (missing: seq<string>)
      ensures missing == MissingIn(cs, variables, names)
    {
      missing := [];
      for i := 0 to |names|
        invariant missing == MissingIn(cs, variables, names[..i])
      {
        assert names[..i + 1][..i] == names[..i];
        if !Supplies(cs, variables, names[i]) {
          missing := missing + [names[i]];
        }
      }
      assert names[..|names|] == names;
    }

    method SetSupplied(cs: Conversions, variables: seq<Variable>) returns (error: Option<BindError>)
      requires Valid() && forall n :: n in names ==> Supplies(cs, variables, n)
      modifies slots
      ensures error.None? <==> forall v :: v in variables ==> Settable(cs, names, v)
      ensures error.Some? ==> FirstFault(cs, names, variables, error.value)
      ensures error.None? ==> Filled(cs, names, variables, slots[..])
    {
      error := SetAll(cs, variables);
      if error.None? {
        forall i | 0 <= i < |names|
          ensures slots[i].Some? && slots[i] == SlotFor(cs, variables, names[i])
        {
          assert names[i] in names;
          SlotIsFilled(cs, names, variables, names[i]);
        }
      }
    }

    /** The whole preview: check that every parameter is supplied, then set every variable. */
    method Bind(cs: Conversions, variables: seq<Variable>) returns (error: Option<BindError>)
      requires Valid()
      modifies slots
      ensures error.None? <==> Bindable(cs, names, variables)
      ensures error.None? ==> Filled(cs, names, variables, slots[..])
      ensures names != [] && variables != [] && MissingIn(cs, variables, names) != [] ==>
                error == Some(MissingParameters(MissingIn(cs, variables, names)))
      ensures names != [] && variables == [] ==> error == Some(NoVariables)
      ensures error.Some? && variables != [] && MissingIn(cs, variables, names) == [] ==>
                FirstFault(cs, names, variables, error.value)
    {
      if names == [] {
        return None;
      }
      if variables == [] {
        assert names[0] in names;
        return Some(NoVariables);
      }
      var missing := FindMissing(cs, variables);
      MissingIff(cs, variables, names);
      if missing != [] {
        return Some(MissingParameters(missing));
      }
      error := SetSupplied(cs, variables);
    }
  }

  lemma SlotIsFilled(cs: Conversions, names: seq<string>, variables: seq<Variable>, name: string)
    requires Supplies(cs, variables, name) && forall v :: v in variables ==> Settable(cs, names, v)
    ensures SlotFor(cs, variables, name).Some?
  {
    var v := LastFor(cs, variables, name).value;
    assert Settable(cs, names, v);
  }

  lemma LastSnoc(cs: Conversions, before: seq<Variable>, v: Variable, name: string)
    ensures Supplies(cs, before + [v], name) <==> Supplies(cs, before, name) || SameName(cs, v.name, name)
    ensures LastFor(cs, before + [v], name) == if SameName(cs, v.name, name) then Some(v) else LastFor(cs, before, name)
  {
    assert (before + [v])[..|before|] == before;
    SuppliesSnoc(cs, before, v, name);
  }

  /**
   From text to values: when the scanner does not look past the end, the k-th `?` it puts in gets the value of the last
   variable whose name is, ignoring case, the k-th name it takes.
   */
  method Preview(a: Alphabet, cs: Conversions, sql: string, variables: seq<Variable>)
    returns (text: Option<string>, error: Option<BindError>, values: seq<Option<SlotValue>>)
    ensures var scanned := Scan(a, sql, Normal);
            text == (if scanned.OutOfBounds? then None else Some(TextOf(scanned.pieces))) &&
            (scanned.Scanned? ==>
               var names := NamesOf(scanned.pieces);
               (error.None? <==> Bindable(cs, names, variables)) &&
               (error.None? ==> Filled(cs, names, variables, values)))
  {
    error, values := None, [];
    var names;
    text, names := PrepareStatement(a, sql);
    if text.None? {
      return;
    }
    var statement := new NamedPreparedStatement(names);
    error := statement.Bind(cs, variables);
    values := statement.slots[..];
  }
}
