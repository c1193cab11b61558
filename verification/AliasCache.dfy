/** The two-way index between table paths and the short aliases d0, d1, ... of a query. */
module AliasCache {
  import opened Truth
  import opened Names
  import opened Filters

  function Alias(i: nat): string {
    "d" + NatText(i)
  }

  lemma AliasIs(i: nat)
    ensures Alias(i) != "" && Alias(i)[0] == 'd' && IsNatural(Alias(i)[1..], i)
  {
    NatTextIsNatural(i);
    assert Alias(i)[1..] == NatText(i);
  }

  lemma AliasIsInjective(i: nat, k: nat)
    ensures Alias(i) == Alias(k) <==> i == k
  {
    TextNatUndoes(i);
    TextNatUndoes(k);
    assert Alias(i)[1..] == NatText(i) && Alias(k)[1..] == NatText(k);
  }

  /** A named table and whether it is on the many side of its join. */
  datatype Entry = Entry(name: string, many: bool)

  predicate Named(order: seq<Entry>, name: string) {
    exists e :: e in order && e.name == name
  }

  /** The first mention of a name numbers it, later ones change nothing. */
  function AddEntry(order: seq<Entry>, e: Entry): seq<Entry> {
    if Named(order, e.name) then order else order + [e]
  }

  function AddEntries(order: seq<Entry>, es: seq<Entry>): seq<Entry>
    decreases es
  {
    if es == [] then order else AddEntries(AddEntry(order, es[0]), es[1..])
  }

  function Numbered(order: seq<Entry>): map<string, string> {
    if order == [] then map[] else Numbered(order[..|order| - 1])[order[|order| - 1].name := Alias(|order| - 1)]
  }

  function Reversed(order: seq<Entry>): map<string, string> {
    if order == [] then map[] else Reversed(order[..|order| - 1])[Alias(|order| - 1) := order[|order| - 1].name]
  }

  function Flags(order: seq<Entry>): map<string, bool> {
    if order == [] then map[] else Flags(order[..|order| - 1])[order[|order| - 1].name := order[|order| - 1].many]
  }

  predicate DistinctEntries(order: seq<Entry>) {
    forall i, k :: 0 <= i < k < |order| ==> order[i].name != order[k].name
  }

  lemma NamedSnoc(order: seq<Entry>, n: string)
    requires order != []
    ensures var init, last := order[..|order| - 1], order[|order| - 1];
            Named(order, n) <==> Named(init, n) || n == last.name
  {
    var init, last := order[..|order| - 1], order[|order| - 1];
    assert forall e :: e in order <==> e in init || e == last;
  }

  lemma {:induction false} NameIndex(order: seq<Entry>, n: string)
    ensures (n in Numbered(order) <==> Named(order, n)) && (n in Flags(order) <==> Named(order, n))
    decreases order
  {
    if order != [] {
      NamedSnoc(order, n);
      NameIndex(order[..|order| - 1], n);
    }
  }

  /** Position by position: a name, its alias and its flag. */
  lemma {:induction false} PositionIndex(order: seq<Entry>, i: nat)
    requires DistinctEntries(order) && i < |order|
    ensures order[i].name in Numbered(order) && Numbered(order)[order[i].name] == Alias(i)
    ensures Alias(i) in Reversed(order) && Reversed(order)[Alias(i)] == order[i].name
    ensures order[i].name in Flags(order) && Flags(order)[order[i].name] == order[i].many
    decreases order
  {
    var k := |order| - 1;
    if i < k {
      AliasIsInjective(i, k);
      PositionIndex(order[..k], i);
      assert order[i].name != order[k].name;
    }
  }

  lemma {:induction false} AliasIndex(order: seq<Entry>, a: string)
    ensures a in Reversed(order) ==> exists i :: 0 <= i < |order| && a == Alias(i)
    decreases order
  {
    if order != [] && a != Alias(|order| - 1) {
      AliasIndex(order[..|order| - 1], a);
    }
  }

  lemma {:induction false} NumberedSize(order: seq<Entry>)
    requires DistinctEntries(order)
    ensures |Numbered(order)| == |order|
    decreases order
  {
    if order != [] {
      var init, last := order[..|order| - 1], order[|order| - 1];
      NumberedSize(init);
      NameIndex(init, last.name);
    }
  }

  /** The alias index is a bijection at all times. */
  lemma AliasesAreABijection(order: seq<Entry>)
    requires DistinctEntries(order)
    ensures forall n :: n in Numbered(order) ==>
              Numbered(order)[n] in Reversed(order) && Reversed(order)[Numbered(order)[n]] == n
    ensures forall a :: a in Reversed(order) ==>
              Reversed(order)[a] in Numbered(order) && Numbered(order)[Reversed(order)[a]] == a
  {
    forall n | n in Numbered(order)
      ensures Numbered(order)[n] in Reversed(order) && Reversed(order)[Numbered(order)[n]] == n
    {
      NameIndex(order, n);
      var e :| e in order && e.name == n;
      var i :| 0 <= i < |order| && order[i] == e;
      PositionIndex(order, i);
    }
    forall a | a in Reversed(order)
      ensures Reversed(order)[a] in Numbered(order) && Numbered(order)[Reversed(order)[a]] == a
    {
      AliasIndex(order, a);
      var i: nat :| 0 <= i < |order| && a == Alias(i);
      PositionIndex(order, i);
    }
  }

  /** A new name gets the next alias. */
  lemma EntryAppended(order: seq<Entry>, e: Entry, next: seq<Entry>)
    requires DistinctEntries(order) && !Named(order, e.name) && next == order + [e]
    ensures Numbered(next) == Numbered(order)[e.name := Alias(|order|)]
    ensures Reversed(next) == Reversed(order)[Alias(|order|) := e.name]
    ensures Flags(next) == Flags(order)[e.name := e.many]
    ensures DistinctEntries(next)
  {
    assert next[..|order|] == order;
    NewNameIsDistinct(order, e);
  }

  lemma NewNameIsDistinct(order: seq<Entry>, e: Entry)
    requires DistinctEntries(order) && !Named(order, e.name)
    ensures DistinctEntries(order + [e])
  {
    forall i | 0 <= i < |order|
      ensures order[i].name != e.name
    {
      assert order[i] in order;
    }
  }

  class SQLAliasCache {
    var rootObjectAlias: Option<string>
    var tableByPath: set<Path>
    var aliasMapping: map<string, string>
    var reverseAliasMapping: map<string, string>
    var tablePathKey: map<string, string>
    var hasMany: map<string, bool>

    /** The names in the order in which they were first mentioned. */
    ghost var order: seq<Entry>

    ghost predicate Valid()
      reads this
    {
      DistinctEntries(order) && aliasMapping == Numbered(order) && reverseAliasMapping == Reversed(order) &&
      hasMany == Flags(order) && rootObjectAlias == if order == [] then None else Some(Alias(0))
    }

    constructor ()
      ensures Valid() && order == [] && tableByPath == {} && tablePathKey == map[]
    {
      rootObjectAlias, tableByPath, aliasMapping, reverseAliasMapping := None, {}, map[], map[];
      tablePathKey, hasMany, order := map[], map[], [];
    }

    method AddAliasMapping(name: string, many: bool) returns (alias: string)
      requires Valid()
      modifies this
      ensures Valid() && order == AddEntry(old(order), Entry(name, many))
      ensures name in aliasMapping && alias == aliasMapping[name]
      ensures tableByPath == old(tableByPath) && tablePathKey == old(tablePathKey)
    {
      NameIndex(order, name);
      if name in aliasMapping {
        return aliasMapping[name];
      }
      alias := AddNewAlias(name, many);
    }

    method AddNewAlias(name: string, many: bool) returns (alias: string)
      requires Valid() && !Named(order, name)
      modifies this
      ensures Valid() && order == old(order) + [Entry(name, many)]
      ensures name in aliasMapping && alias == aliasMapping[name]
      ensures tableByPath == old(tableByPath) && tablePathKey == old(tablePathKey)
    {
      ghost var e := Entry(name, many);
      ghost var next := order + [e];
      NumberedSize(order);
      EntryAppended(order, e, next);
      alias := Alias(|aliasMapping|);
      if rootObjectAlias.None? {
        rootObjectAlias := Some(alias);
      }
      aliasMapping := aliasMapping[name := alias];
      reverseAliasMapping := reverseAliasMapping[alias := name];
      hasMany := hasMany[name := many];
      order := next;
    }

    method AddTable(path: Path)
      requires Valid()
      modifies this`tableByPath
      ensures Valid() && tableByPath == old(tableByPath) + {path}
    {
      tableByPath := tableByPath + {path};
    }

    method AddTablePathKey(tablePath: string, keyField: string)
      requires Valid()
      modifies this`tablePathKey
      ensures Valid() && tablePathKey == old(tablePathKey)[tablePath := keyField]
    {
      tablePathKey := tablePathKey[tablePath := keyField];
    }
  }
}
