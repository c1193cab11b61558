/** Locking a record: taking, renewing and releasing a lock are one conditional UPDATE each. */
module RecordLock {
  import opened Truth
  import opened Seqs
  import opened Names

  /** A variable of a named query. */
  datatype Arg = NullArg | TextArg(s: string) | NumberArg(n: int) | FlagArg(b: bool)

  datatype Cell = NullCell | TextCell(s: string) | NumberCell(n: int) | FlagCell(b: bool) | TimeCell(t: int)

  /** A record: its own columns and the lock columns. */
  datatype Record = Record(columns: map<string, Cell>, id: Cell, at: Cell, exp: Cell, read: Cell)

  datatype LockColumn = LOCK_ID | LOCK_AT | LOCK_EXP | LOCK_READ | Own(name: string)

  datatype Expression = Literal(c: Cell) | NULL | Now | NowPlus(interval: Arg)

  datatype Condition =
    | Equals(column: LockColumn, value: Cell)
    | IsNull(column: LockColumn)
    | BeforeNow(column: LockColumn)
    | Combo(op: Connective, conditions: seq<Condition>)

  datatype UpdateQuery = UpdateQuery(table: string, sets: seq<(LockColumn, Expression)>, where_: Condition)

  // ---------------------------------------------------------------- the statement

  const TABLE_VAR := "table"
  const KEY_VAR := "key"
  const KEYCOL_VAR := "keyColumn"
  const TTL_VAR := "ttl"
  const VALUE_VAR := "value"
  const READ_VAR := "readOnly"
  const OLD_VALUE_VAR := "oldValue"

  datatype Kind = Get | Release

  datatype Fault = MissingAll | Missing(name: string) | NotText(name: string)

  function Required(kind: Kind): seq<string> {
    if kind.Get? then [TABLE_VAR, VALUE_VAR, TTL_VAR, KEY_VAR, KEYCOL_VAR, READ_VAR]
    else [TABLE_VAR, VALUE_VAR, KEY_VAR, KEYCOL_VAR]
  }

  function FirstMissing(names: seq<string>, variables: map<string, Arg>): Option<Fault> {
    if names == [] then None
    else if names[0] !in variables then Some(Missing(names[0]))
    else FirstMissing(names[1..], variables)
  }

  function Lookup(variables: map<string, Arg>, name: string): Arg {
    if name in variables then variables[name] else NullArg
  }

  /** What validation leaves in the caller's variables. */
  function Prepared(kind: Kind, variables: map<string, Arg>): map<string, Arg> {
    var kept := variables[OLD_VALUE_VAR := Lookup(variables, VALUE_VAR)];
    if kind.Get? then kept else kept[VALUE_VAR := NullArg][TTL_VAR := NullArg][READ_VAR := NullArg]
  }

  /** String conversion of a name: the cast fails on a value that is not text. */
  function NameOf(a: Arg): Option<string> {
    match a
    case TextArg(s) => Some(s)
    case NullArg => Some("null")
    case _ => None
  }

  function CellOf(a: Arg): Cell {
    match a
    case NullArg => NullCell
    case TextArg(s) => TextCell(s)
    case NumberArg(n) => NumberCell(n)
    case FlagArg(b) => FlagCell(b)
  }

  /** The read flag is written as text. */
  function ReadCellOf(a: Arg): Cell {
    match a
    case NullArg => NullCell
    case TextArg(s) => TextCell(s)
    case NumberArg(n) => TextCell(if n < 0 then "-" + NatText(-n) else NatText(n))
    case FlagArg(b) => TextCell(if b then "true" else "false")
  }

  datatype Built = Built(query: UpdateQuery) | Refused(fault: Fault)

  class Variables {
    var entries: map<string, Arg>

    constructor (entries: map<string, Arg>)
      ensures this.entries == entries
    {
      this.entries := entries;
    }
  }

  /** pgGetRowLock, or pgReleaseRowLock with some of its inherited fields reassigned. */
  class RecordLockStatement {
    var kind: Kind
    var setNow: Expression
    var queryName: string

    constructor Get()
      ensures Valid() && kind == Kind.Get
    {
      kind, setNow, queryName := Kind.Get, Now, "pgGetRowLock";
    }

    constructor Release()
      ensures Valid() && kind == Kind.Release
    {
      kind, setNow, queryName := Kind.Release, Now, "pgGetRowLock";
      new;
      setNow := NULL;
      queryName := "pgReleaseRowLock";
    }

    predicate Valid()
      reads this
    {
      setNow == SetNow(kind) && queryName == if kind.Get? then "pgGetRowLock" else "pgReleaseRowLock"
    }

    method Validate(variables: Variables?) returns (fault: Option<Fault>)
      modifies variables
      ensures variables == null ==> fault == Some(MissingAll)
      ensures variables != null ==>
                fault == FirstMissing(Required(kind), old(variables.entries)) &&
                variables.entries ==
                  if fault.None? then Prepared(kind, old(variables.entries)) else old(variables.entries)
    {
      if variables == null {
        return Some(MissingAll);
      }
      var names := Required(kind);
      for i := 0 to |names|
        invariant variables.entries == old(variables.entries)
        invariant FirstMissing(names, variables.entries) == FirstMissing(names[i..], variables.entries)
      {
        if names[i] !in variables.entries {
          return Some(Missing(names[i]));
        }
        assert names[i..][1..] == names[i + 1..];
      }
      assert names[|names|..] == [];
      fault := None;
      variables.entries := variables.entries[OLD_VALUE_VAR := Lookup(variables.entries, VALUE_VAR)];
      if kind.Release? {
        variables.entries := variables.entries[VALUE_VAR := NullArg];
        variables.entries := variables.entries[TTL_VAR := NullArg];
        variables.entries := variables.entries[READ_VAR := NullArg];
      }
    }

    method Build(variables: Variables?) returns (built: Built)
      requires Valid()
      modifies variables
      ensures variables == null ==> built == Refused(MissingAll)
      ensures variables != null ==> built == StatementOf(kind, old(variables.entries))
      ensures variables != null && built.Built? ==>
                "table" in old(variables.entries) && IsNameFor(built.query.table, old(variables.entries)["table"])
    {
      var fault := Validate(variables);
      if fault.Some? {
        return Refused(fault.value);
      }
      var vars := variables.entries;
      var table := NameOf(Lookup(vars, TABLE_VAR));
      if table.None? {
        return Refused(NotText(TABLE_VAR));
      }
      var keyColumn := NameOf(Lookup(vars, KEYCOL_VAR));
      if keyColumn.None? {
        return Refused(NotText(KEYCOL_VAR));
      }
      var sets := [(LOCK_ID, Literal(CellOf(Lookup(vars, VALUE_VAR))))];
      sets := sets + [(LOCK_READ, Literal(ReadCellOf(Lookup(vars, READ_VAR))))];
      sets := sets + [(LOCK_AT, setNow)];
      sets := sets + [(LOCK_EXP, ExpiresAt(kind, Lookup(vars, TTL_VAR)))];
      var valueOr := Combo(Or, [Equals(LOCK_ID, CellOf(Lookup(vars, OLD_VALUE_VAR))), IsNull(LOCK_ID)]);
      var timeOr := Combo(Or, [BeforeNow(LOCK_EXP), IsNull(LOCK_AT)]);
      var key := Equals(Own(keyColumn.value), CellOf(Lookup(vars, KEY_VAR)));
      built := Built(UpdateQuery(table.value, sets, Combo(And, [key, Combo(Or, [valueOr, timeOr])])));
    }
  }

  function SetNow(kind: Kind): Expression {
    if kind.Get? then Now else NULL
  }

  function ExpiresAt(kind: Kind, ttl: Arg): Expression {
    if kind.Get? then NowPlus(ttl) else NULL
  }

  /** The conditional UPDATE of a get or a release. */
  function StatementOf(kind: Kind, variables: map<string, Arg>): Built {
    var fault := FirstMissing(Required(kind), variables);
    if fault.Some? then Refused(fault.value)
    else
      var table, keyColumn := NameOf(Lookup(variables, TABLE_VAR)), NameOf(Lookup(variables, KEYCOL_VAR));
      if table.None? then Refused(NotText(TABLE_VAR))
      else if keyColumn.None? then Refused(NotText(KEYCOL_VAR))
      else
        var id := CellOf(Lookup(variables, VALUE_VAR));
        Built(UpdateQuery(
          table.value,
          [(LOCK_ID, Literal(if kind.Get? then id else NullCell)),
           (LOCK_READ, Literal(if kind.Get? then ReadCellOf(Lookup(variables, READ_VAR)) else NullCell)),
           (LOCK_AT, SetNow(kind)),
           (LOCK_EXP, ExpiresAt(kind, Lookup(variables, TTL_VAR)))],
          LockCondition(keyColumn.value, CellOf(Lookup(variables, KEY_VAR)), id)))
  }

  function LockCondition(keyColumn: string, key: Cell, id: Cell): Condition {
    Combo(And, [Equals(Own(keyColumn), key),
                Combo(Or, [Combo(Or, [Equals(LOCK_ID, id), IsNull(LOCK_ID)]),
                           Combo(Or, [BeforeNow(LOCK_EXP), IsNull(LOCK_AT)])])])
  }

  // ---------------------------------------------------------------- executing the statement

  function At(r: Record, c: LockColumn): Cell {
    match c
    case LOCK_ID => r.id
    case LOCK_AT => r.at
    case LOCK_EXP => r.exp
    case LOCK_READ => r.read
    case Own(name) => if name in r.columns then r.columns[name] else NullCell
  }

  function Holds(c: Condition, r: Record, now: int): Truth
    decreases c
  {
    match c
    case Equals(column, value) =>
      if At(r, column).NullCell? || value.NullCell? then Unknown else Truly(At(r, column) == value)
    case IsNull(column) => Truly(At(r, column).NullCell?)
    case BeforeNow(column) =>
      if At(r, column).NullCell? then Unknown else Truly(At(r, column).TimeCell? && At(r, column).t < now)
    case Combo(op, cs) => HoldAll(op, cs, r, now)
  }

  function HoldAll(op: Connective, cs: seq<Condition>, r: Record, now: int): Truth
    decreases cs
  {
    if cs == [] then Truly(op.And?) else Connect(op, Holds(cs[0], r, now), HoldAll(op, cs[1..], r, now))
  }

  /** The seconds an interval text stands for, as the database reads it. */
  type Intervals = Arg -> Option<int>

  function ValueOf(e: Expression, now: int, intervals: Intervals): Option<Cell> {
    match e
    case Literal(c) => Some(c)
    case NULL => Some(NullCell)
    case Now => Some(TimeCell(now))
    case NowPlus(ttl) => if intervals(ttl).Some? then Some(TimeCell(now + intervals(ttl).value)) else None
  }

  function SetColumn(r: Record, c: LockColumn, v: Cell): Record {
    match c
    case LOCK_ID => r.(id := v)
    case LOCK_AT => r.(at := v)
    case LOCK_EXP => r.(exp := v)
    case LOCK_READ => r.(read := v)
    case Own(name) => r.(columns := r.columns[name := v])
  }

  predicate Executable(q: UpdateQuery, intervals: Intervals) {
    forall i :: 0 <= i < |q.sets| ==> ValueOf(q.sets[i].1, 0, intervals).Some?
  }

  function Assigned(r: Record, sets: seq<(LockColumn, Expression)>, now: int, intervals: Intervals): Record
    decreases sets
  {
    if sets == [] then r
    else
      var v := ValueOf(sets[0].1, now, intervals);
      Assigned(if v.Some? then SetColumn(r, sets[0].0, v.value) else r, sets[1..], now, intervals)
  }

  // ---------------------------------------------------------------- steps of many clients

  /** One statement of one client; `now` is the clock of its transaction. */
  datatype Step = Step(kind: Kind, variables: map<string, Arg>, now: int)

  /** The table under observation, and the database's reading of intervals. */
  datatype Setting = Setting(table: string, intervals: Intervals)

  predicate Effective(s: Setting, step: Step) {
    var built := StatementOf(step.kind, step.variables);
    built.Built? && built.query.table == s.table && Executable(built.query, s.intervals)
  }

  /** The record after the step, and whether the step updated it. */
  function Apply(s: Setting, r: Record, step: Step): (Record, bool) {
    if !Effective(s, step) then (r, false)
    else
      var q := StatementOf(step.kind, step.variables).query;
      if Holds(q.where_, r, step.now) == Yes then (Assigned(r, q.sets, step.now, s.intervals), true) else (r, false)
  }

  function After(s: Setting, r: Record, steps: seq<Step>): Record {
    if steps == [] then r else Apply(s, After(s, r, steps[..|steps| - 1]), steps[|steps| - 1]).0
  }

  function TableAfter(s: Setting, records: seq<Record>, steps: seq<Step>): seq<Record> {
    Map(records, (r: Record) => After(s, r, steps))
  }

  /** What the client is told: the number of updated records. */
  function Count(s: Setting, records: seq<Record>, step: Step): nat {
    if records == [] then 0 else (if Apply(s, records[0], step).1 then 1 else 0) + Count(s, records[1..], step)
  }

  function IdOf(step: Step): Cell {
    CellOf(Lookup(step.variables, VALUE_VAR))
  }

  function KeyOf(step: Step): Cell {
    CellOf(Lookup(step.variables, KEY_VAR))
  }

  function KeyColumnOf(step: Step): string {
    match NameOf(Lookup(step.variables, KEYCOL_VAR))
    case Some(name) => name
    case None => ""
  }

  function TtlOf(s: Setting, step: Step): Option<int> {
    s.intervals(Lookup(step.variables, TTL_VAR))
  }

  /** The record is the one the step asks for. */
  predicate Asks(r: Record, step: Step) {
    KeyOf(step) != NullCell && At(r, Own(KeyColumnOf(step))) == KeyOf(step)
  }

  /** The record is not held by anyone else at this time. */
  predicate Free(r: Record, id: Cell, now: int) {
    r.id == NullCell || r.id == id || (r.exp.TimeCell? && r.exp.t < now) || r.at == NullCell
  }

  lemma TwoOf(op: Connective, a: Condition, b: Condition, r: Record, now: int)
    ensures Holds(Combo(op, [a, b]), r, now) == Connect(op, Holds(a, r, now), Holds(b, r, now))
  {
    var cs := [a, b];
    assert cs[1..] == [b] && [b][1..] == [];
    assert HoldAll(op, [b], r, now) == Connect(op, Holds(b, r, now), HoldAll(op, [], r, now));
  }

  /** The WHERE clause, read in three-valued logic: the record is the one asked for, and free. */
  lemma ConditionMeans(keyColumn: string, key: Cell, id: Cell, r: Record, now: int)
    ensures Holds(LockCondition(keyColumn, key, id), r, now) == Yes <==>
              key != NullCell && At(r, Own(keyColumn)) == key && Free(r, id, now)
  {
    var mine, unset := Equals(LOCK_ID, id), IsNull(LOCK_ID);
    var expired, never := BeforeNow(LOCK_EXP), IsNull(LOCK_AT);
    TwoOf(Or, mine, unset, r, now);
    TwoOf(Or, expired, never, r, now);
    TwoOf(Or, Combo(Or, [mine, unset]), Combo(Or, [expired, never]), r, now);
    TwoOf(And, Equals(Own(keyColumn), key), Combo(Or, [Combo(Or, [mine, unset]), Combo(Or, [expired, never])]), r, now);
  }

  /** The record after a step that updates it. */
  function Written(s: Setting, r: Record, step: Step): Record {
    if step.kind.Release? then r.(id := NullCell, at := NullCell, exp := NullCell, read := NullCell)
    else r.(id := IdOf(step), read := ReadCellOf(Lookup(step.variables, READ_VAR)), at := TimeCell(step.now),
            exp := if TtlOf(s, step).Some? then TimeCell(step.now + TtlOf(s, step).value) else r.exp)
  }

  lemma SetsWrite(s: Setting, r: Record, step: Step)
    requires Effective(s, step)
    ensures Assigned(r, StatementOf(step.kind, step.variables).query.sets, step.now, s.intervals) == Written(s, r, step)
    ensures step.kind.Get? ==> TtlOf(s, step).Some?
  {
    var sets := StatementOf(step.kind, step.variables).query.sets;
    var now, intervals := step.now, s.intervals;
    assert ValueOf(sets[3].1, 0, intervals).Some?;
    var id, read := ValueOf(sets[0].1, now, intervals).value, ValueOf(sets[1].1, now, intervals).value;
    var at, exp := ValueOf(sets[2].1, now, intervals).value, ValueOf(sets[3].1, now, intervals).value;
    assert sets[1..][1..] == sets[2..] && sets[2..][1..] == sets[3..] && sets[3..][1..] == [];
    assert Assigned(r.(id := id, read := read, at := at), sets[3..], now, intervals) ==
           Assigned(r.(id := id, read := read, at := at, exp := exp), [], now, intervals);
    assert Assigned(r.(id := id), sets[1..], now, intervals) ==
           Assigned(r.(id := id, read := read), sets[2..], now, intervals);
    assert Assigned(r.(id := id, read := read), sets[2..], now, intervals) ==
           Assigned(r.(id := id, read := read, at := at), sets[3..], now, intervals);
  }

  /** One step on one record. */
  lemma StepMeans(s: Setting, r: Record, step: Step)
    ensures Apply(s, r, step) ==
              if Effective(s, step) && Asks(r, step) && Free(r, IdOf(step), step.now)
              then (Written(s, r, step), true) else (r, false)
    ensures Effective(s, step) && step.kind.Get? ==> TtlOf(s, step).Some?
  {
    if Effective(s, step) {
      SetsWrite(s, r, step);
      ConditionMeans(KeyColumnOf(step), KeyOf(step), IdOf(step), r, step.now);
    }
  }
  // ---------------------------------------------------------------- in terms of the variables

  /** The variables a statement asks for. */
  predicate Complete(kind: Kind, v: map<string, Arg>) {
    "table" in v && "value" in v && "key" in v && "keyColumn" in v && (kind.Get? ==> "ttl" in v && "readOnly" in v)
  }

  /** A variable can name a table or a column; a null variable prints as a name, too. */
  predicate CanName(a: Arg) {
    !a.NumberArg? && !a.FlagArg?
  }

  predicate IsNameFor(name: string, a: Arg) {
    a == TextArg(name) || (a == NullArg && name == "null")
  }

  lemma MissingIs(kind: Kind, v: map<string, Arg>)
    ensures var missing := FirstMissing(Required(kind), v);
            (missing == Some(Missing("table")) <==> "table" !in v) &&
            (missing == Some(Missing("value")) <==> "table" in v && "value" !in v) &&
            (missing == Some(Missing("ttl")) <==> kind.Get? && {"table", "value"} <= v.Keys && "ttl" !in v) &&
            (missing == Some(Missing("key")) <==>
               {"table", "value"} <= v.Keys && (kind.Get? ==> "ttl" in v) && "key" !in v) &&
            (missing == Some(Missing("keyColumn")) <==>
               {"table", "value", "key"} <= v.Keys && (kind.Get? ==> "ttl" in v) && "keyColumn" !in v) &&
            (missing == Some(Missing("readOnly")) <==>
               kind.Get? && {"table", "value", "ttl", "key", "keyColumn"} <= v.Keys && "readOnly" !in v) &&
            (missing == None <==> Complete(kind, v))
  {
    assert "table"[0] != "value"[0] && "ttl"[0] != "key"[0];
    if kind.Get? {
      MissingFirst("readOnly", [], v);
      MissingFirst("keyColumn", ["readOnly"], v);
      MissingFirst("key", ["keyColumn", "readOnly"], v);
      MissingFirst("ttl", ["key", "keyColumn", "readOnly"], v);
      MissingFirst("value", ["ttl", "key", "keyColumn", "readOnly"], v);
      MissingFirst("table", ["value", "ttl", "key", "keyColumn", "readOnly"], v);
    } else {
      MissingFirst("keyColumn", [], v);
      MissingFirst("key", ["keyColumn"], v);
      MissingFirst("value", ["key", "keyColumn"], v);
      MissingFirst("table", ["value", "key", "keyColumn"], v);
    }
  }

  lemma MissingFirst(name: string, names: seq<string>, v: map<string, Arg>)
    ensures FirstMissing([name] + names, v) == if name !in v then Some(Missing(name)) else FirstMissing(names, v)
  {
    assert ([name] + names)[1..] == names;
  }

  /** A statement is refused for the first variable that is missing, or else for a name that is no text. */
  lemma RefusedIff(kind: Kind, v: map<string, Arg>)
    ensures StatementOf(kind, v).Built? <==> Complete(kind, v) && CanName(v["table"]) && CanName(v["keyColumn"])
    ensures !Complete(kind, v) <==> StatementOf(kind, v).Refused? && StatementOf(kind, v).fault.Missing?
    ensures StatementOf(kind, v) == Refused(NotText("table")) <==> Complete(kind, v) && !CanName(v["table"])
    ensures StatementOf(kind, v) == Refused(NotText("keyColumn")) <==>
              Complete(kind, v) && CanName(v["table"]) && !CanName(v["keyColumn"])
  {
    MissingIs(kind, v);
    OnlyMissing(Required(kind), v);
    assert "table" != "keyColumn";
  }

  lemma {:induction false} OnlyMissing(names: seq<string>, v: map<string, Arg>)
    ensures FirstMissing(names, v).Some? ==> FirstMissing(names, v).value.Missing?
    decreases names
  {
    if names != [] {
      OnlyMissing(names[1..], v);
    }
  }

  /** Validation keeps what it was given as the old value; a release clears what a get would write. */
  lemma PreparedLeaves(kind: Kind, v: map<string, Arg>, name: string)
    requires Complete(kind, v)
    ensures var w := Prepared(kind, v);
            {"oldValue", "value"} <= w.Keys && w["oldValue"] == v["value"] &&
            (kind.Get? ==> w["value"] == v["value"]) &&
            (kind.Release? ==> {"ttl", "readOnly"} <= w.Keys && w["value"] == w["ttl"] == w["readOnly"] == NullArg)
    ensures name != "oldValue" && (kind.Get? || name !in {"value", "ttl", "readOnly"}) ==>
              (name in Prepared(kind, v) <==> name in v) && (name in v ==> Prepared(kind, v)[name] == v[name])
  {
  }

  /** Both statements update the table that the variable named "table" names. */
  lemma UpdatesNamedTable(kind: Kind, v: map<string, Arg>)
    requires StatementOf(kind, v).Built?
    ensures "table" in v && IsNameFor(StatementOf(kind, v).query.table, v["table"])
  {
    RefusedIff(kind, v);
  }

  /** A step is effective on a setting iff it is complete, names the setting's table and has a time to live. */
  lemma EffectiveIff(s: Setting, step: Step)
    ensures Effective(s, step) <==>
              Complete(step.kind, step.variables) && IsNameFor(s.table, step.variables["table"]) &&
              CanName(step.variables["keyColumn"]) &&
              (step.kind.Get? ==> s.intervals(step.variables["ttl"]).Some?)
  {
    RefusedIff(step.kind, step.variables);
    if StatementOf(step.kind, step.variables).Built? {
      var sets := StatementOf(step.kind, step.variables).query.sets;
      assert Executable(StatementOf(step.kind, step.variables).query, s.intervals) <==>
             ValueOf(sets[3].1, 0, s.intervals).Some?;
    }
  }

  /** A cell holds the value of a variable. */
  predicate HoldsValue(c: Cell, a: Arg) {
    match c
    case NullCell => a == NullArg
    case TextCell(s) => a == TextArg(s)
    case NumberCell(n) => a == NumberArg(n)
    case FlagCell(b) => a == FlagArg(b)
    case TimeCell(_) => false
  }

  /** A cell holds the text of a variable, NULL for none. */
  predicate HoldsText(c: Cell, a: Arg) {
    if c.TextCell? then
      a == TextArg(c.s) || (c.s == "true" && a == FlagArg(true)) || (c.s == "false" && a == FlagArg(false)) ||
      (a.NumberArg? && IsDecimal(c.s, a.n))
    else c == NullCell && a == NullArg
  }

  lemma ValueIsHeld(c: Cell, a: Arg)
    ensures HoldsValue(c, a) <==> c == CellOf(a)
  {
  }

  lemma TextIsHeld(a: Arg)
    ensures HoldsText(ReadCellOf(a), a)
  {
    match a
    case NumberArg(n) => NumberTextIsDecimal(n);
    case _ =>
  }

  /** The record has the key the variables name, in the column they name. */
  predicate IsAskedFor(r: Record, v: map<string, Arg>, column: string)
    requires "key" in v
  {
    column in r.columns && v["key"] != NullArg && HoldsValue(r.columns[column], v["key"])
  }

  /** The record is unlocked, locked by the value of the variables, or locked by a lock that has expired. */
  predicate IsOpenTo(r: Record, v: map<string, Arg>, now: int)
    requires "value" in v
  {
    r.id == NullCell || r.at == NullCell || HoldsValue(r.id, v["value"]) || (r.exp.TimeCell? && r.exp.t < now)
  }

  /**
   One statement, from its variables to the record: which record it updates, and what a get and a release leave in the
   four lock columns.
   */
  lemma StepWrites(s: Setting, r: Record, step: Step, column: string)
    requires Effective(s, step)
    ensures Complete(step.kind, step.variables)
    ensures IsNameFor(column, step.variables["keyColumn"]) ==>
              (Apply(s, r, step).1 <==>
                 IsAskedFor(r, step.variables, column) && IsOpenTo(r, step.variables, step.now))
    ensures !Apply(s, r, step).1 ==> Apply(s, r, step).0 == r
    ensures Apply(s, r, step).0.columns == r.columns
    ensures Apply(s, r, step).1 && step.kind.Release? ==>
              Apply(s, r, step).0 == Record(r.columns, NullCell, NullCell, NullCell, NullCell)
    ensures Apply(s, r, step).1 && step.kind.Get? ==>
              var after := Apply(s, r, step).0;
              HoldsValue(after.id, step.variables["value"]) && HoldsText(after.read, step.variables["readOnly"]) &&
              after.at == TimeCell(step.now) && s.intervals(step.variables["ttl"]).Some? &&
              after.exp == TimeCell(step.now + s.intervals(step.variables["ttl"]).value)
  {
    var v := step.variables;
    EffectiveIff(s, step);
    StepMeans(s, r, step);
    ValueIsHeld(IdOf(step), v["value"]);
    ValueIsHeld(r.id, v["value"]);
    ValueIsHeld(if column in r.columns then r.columns[column] else NullCell, v["key"]);
    if step.kind.Get? {
      TextIsHeld(v["readOnly"]);
    }
  }
}
