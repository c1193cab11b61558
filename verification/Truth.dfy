/** SQL truth values and NULL-aware values: section 8.12 of ISO/IEC 9075:1992. */
module Truth {
  datatype Option<+T> = None | Some(value: T)

  datatype Truth = Yes | No | Unknown

  /** A column value: NULL, or a value known by its text. */
  datatype Value = Null | Val(text: string)

  /** What the database decides about non-null values: their order and the LIKE relation. */
  datatype Collation = Collation(less: (string, string) -> bool, like: (string, string) -> bool)

  datatype Connective = And | Or

  function Truly(b: bool): Truth {
    if b then Yes else No
  }

  function Not3(t: Truth): Truth {
    match t
    case Yes => No
    case No => Yes
    case Unknown => Unknown
  }

  function And3(a: Truth, b: Truth): Truth {
    if a == No || b == No then No else if a == Yes && b == Yes then Yes else Unknown
  }

  function Or3(a: Truth, b: Truth): Truth {
    if a == Yes || b == Yes then Yes else if a == No && b == No then No else Unknown
  }

  function Connect(op: Connective, a: Truth, b: Truth): Truth {
    if op.And? then And3(a, b) else Or3(a, b)
  }

  function Fold(op: Connective, ts: seq<Truth>): Truth {
    if ts == [] then Truly(op.And?) else Connect(op, ts[0], Fold(op, ts[1..]))
  }

  function Equal3(a: Value, b: Value): Truth {
    if a.Null? || b.Null? then Unknown else Truly(a.text == b.text)
  }

  /** `v IN (vs)`: the disjunction of the equalities. */
  function AnyEqual(v: Value, vs: seq<Value>): Truth {
    if vs == [] then No else Or3(Equal3(v, vs[0]), AnyEqual(v, vs[1..]))
  }

  /** Three-valued connectives do not see order or repetition. */
  lemma {:induction false} FoldIsSetBased(op: Connective, ts: seq<Truth>)
    ensures op.And? ==> Fold(op, ts) == if No in ts then No else if Unknown in ts then Unknown else Yes
    ensures op.Or? ==> Fold(op, ts) == if Yes in ts then Yes else if Unknown in ts then Unknown else No
  {
    if ts != [] {
      FoldIsSetBased(op, ts[1..]);
      assert forall t :: t in ts <==> t == ts[0] || t in ts[1..];
    }
  }

  /** A conjunction holds iff every member does; a disjunction iff some member does. */
  lemma FoldYes(op: Connective, ts: seq<Truth>)
    ensures op.And? ==> (Fold(op, ts) == Yes <==> forall t :: t in ts ==> t == Yes)
    ensures op.Or? ==> (Fold(op, ts) == Yes <==> Yes in ts)
  {
    FoldIsSetBased(op, ts);
  }

  lemma {:induction false} AnyEqualYes(v: Value, vs: seq<Value>)
    ensures AnyEqual(v, vs) == Yes <==> v.Val? && v in vs
  {
    if vs != [] {
      AnyEqualYes(v, vs[1..]);
      assert forall t :: t in vs <==> t == vs[0] || t in vs[1..];
    }
  }
}
