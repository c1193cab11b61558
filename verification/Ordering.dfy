/** ORDER BY, and what sorted row lists determine. */
module Ordering {
  import opened Truth
  import opened Filters
  import opened Sql

  datatype OrderKey = OrderKey(column: Column, descending: bool)

  /** NULLs sort last. */
  function Less(co: Collation, a: Value, b: Value): bool {
    a.Val? && (b.Null? || co.less(a.text, b.text))
  }

  function LessBy(co: Collation, k: OrderKey, i: JoinedRow, j: JoinedRow): bool {
    var a, b := ColumnOf(i, k.column), ColumnOf(j, k.column);
    if k.descending then Less(co, b, a) else Less(co, a, b)
  }

  predicate Before(co: Collation, keys: seq<OrderKey>, i: JoinedRow, j: JoinedRow) {
    keys != [] &&
    (LessBy(co, keys[0], i, j) || (!LessBy(co, keys[0], j, i) && Before(co, keys[1..], i, j)))
  }

  predicate Sorted(co: Collation, keys: seq<OrderKey>, rows: seq<JoinedRow>) {
    forall a, b :: 0 <= a < b < |rows| ==> !Before(co, keys, rows[b], rows[a])
  }

  /** The database's order on texts is a strict total order. */
  ghost predicate TotalOrder(co: Collation) {
    (forall a :: !co.less(a, a)) &&
    (forall a, b, c :: co.less(a, b) && co.less(b, c) ==> co.less(a, c)) &&
    (forall a, b :: co.less(a, b) || co.less(b, a) || a == b)
  }

  lemma {:induction false} BeforeIsTransitive(
      co: Collation, keys: seq<OrderKey>, i: JoinedRow, j: JoinedRow, k: JoinedRow)
    requires TotalOrder(co) && Before(co, keys, i, j) && Before(co, keys, j, k)
    ensures Before(co, keys, i, k)
    decreases keys
  {
    if !LessBy(co, keys[0], i, j) && !LessBy(co, keys[0], j, k) {
      BeforeIsTransitive(co, keys[1..], i, j, k);
    }
  }

  lemma {:induction false} BeforeIsIrreflexive(co: Collation, keys: seq<OrderKey>, i: JoinedRow)
    requires TotalOrder(co)
    ensures !Before(co, keys, i, i)
    decreases keys
  {
    if keys != [] {
      BeforeIsIrreflexive(co, keys[1..], i);
    }
  }

  /** What lies between: a third row comes after the first or before the second. */
  lemma {:induction false} BeforeSplits(
      co: Collation, keys: seq<OrderKey>, i: JoinedRow, j: JoinedRow, k: JoinedRow)
    requires TotalOrder(co) && Before(co, keys, i, j)
    ensures Before(co, keys, i, k) || Before(co, keys, k, j)
    decreases keys
  {
    if !LessBy(co, keys[0], i, j) {
      BeforeSplits(co, keys[1..], i, j, k);
    }
  }

  /** By a key, the rows that agree on the keys before it are in its order. */
  lemma {:induction false} SortedAt(co: Collation, keys: seq<OrderKey>, i: JoinedRow, j: JoinedRow, m: nat)
    requires m < |keys| && !Before(co, keys, j, i)
    requires forall k :: 0 <= k < m ==> !LessBy(co, keys[k], i, j) && !LessBy(co, keys[k], j, i)
    ensures !LessBy(co, keys[m], j, i)
    decreases m
  {
    if m > 0 {
      assert !Before(co, keys[1..], j, i);
      SortedAt(co, keys[1..], i, j, m - 1);
    }
  }

  /** Behind keys on which two rows agree, the next key orders them; by a descending key the greater value leads. */
  lemma DescendsAt(
      co: Collation, own: seq<OrderKey>, joined: seq<OrderKey>, i: JoinedRow, j: JoinedRow, m: nat)
    requires TotalOrder(co) && m < |joined| && joined[m].descending && !Before(co, own + joined, j, i)
    requires forall k :: k in own ==> ColumnOf(i, k.column) == ColumnOf(j, k.column)
    requires forall k :: 0 <= k < m ==> ColumnOf(i, joined[k].column) == ColumnOf(j, joined[k].column)
    ensures !Less(co, ColumnOf(i, joined[m].column), ColumnOf(j, joined[m].column))
  {
    var keys := own + joined;
    forall k | 0 <= k < |own| + m
      ensures !LessBy(co, keys[k], i, j) && !LessBy(co, keys[k], j, i)
    {
      assert if k < |own| then keys[k] == own[k] && own[k] in own else keys[k] == joined[k - |own|];
    }
    SortedAt(co, keys, i, j, |own| + m);
    assert keys[|own| + m] == joined[m];
  }

  /** Rows that differ in some ordering column are ordered. */
  lemma {:induction false} BeforeIsTotal(co: Collation, keys: seq<OrderKey>, i: JoinedRow, j: JoinedRow, k: OrderKey)
    requires TotalOrder(co) && k in keys && ColumnOf(i, k.column) != ColumnOf(j, k.column)
    ensures Before(co, keys, i, j) || Before(co, keys, j, i)
    decreases keys
  {
    if k != keys[0] {
      BeforeIsTotal(co, keys[1..], i, j, k);
    }
  }

  /** What is before by the leading keys is before by all of them. */
  lemma {:induction false} BeforeByPrefix(
      co: Collation, keys: seq<OrderKey>, more: seq<OrderKey>, i: JoinedRow, j: JoinedRow)
    requires Before(co, keys, i, j)
    ensures Before(co, keys + more, i, j)
    decreases keys
  {
    assert (keys + more)[1..] == keys[1..] + more;
    if !LessBy(co, keys[0], i, j) {
      BeforeByPrefix(co, keys[1..], more, i, j);
    }
  }

  lemma {:induction false} BeforeReadsColumns(
      co: Collation, keys: seq<OrderKey>, i: JoinedRow, j: JoinedRow, i': JoinedRow, j': JoinedRow)
    requires forall k :: k in keys ==> ColumnOf(i, k.column) == ColumnOf(i', k.column) &&
                                       ColumnOf(j, k.column) == ColumnOf(j', k.column)
    ensures Before(co, keys, i, j) == Before(co, keys, i', j')
    decreases keys
  {
    if keys != [] {
      BeforeReadsColumns(co, keys[1..], i, j, i', j');
    }
  }

  predicate StrictlySorted(co: Collation, keys: seq<OrderKey>, rows: seq<JoinedRow>) {
    forall a, b :: 0 <= a < b < |rows| ==> Before(co, keys, rows[a], rows[b])
  }

  lemma FirstIsLeast(co: Collation, keys: seq<OrderKey>, xs: seq<JoinedRow>, ys: seq<JoinedRow>)
    requires TotalOrder(co) && StrictlySorted(co, keys, xs) && StrictlySorted(co, keys, ys)
    requires xs != [] && ys != [] && ys[0] in xs && xs[0] in ys
    ensures xs[0] == ys[0]
  {
    var i, j :| 0 <= i < |xs| && xs[i] == ys[0] && 0 <= j < |ys| && ys[j] == xs[0];
    if i > 0 && j > 0 {
      BeforeIsTransitive(co, keys, xs[0], ys[0], xs[0]);
      BeforeIsIrreflexive(co, keys, xs[0]);
    }
  }

  /** A strictly sorted list is determined by its members. */
  lemma {:induction false} SortedListsAreEqual(
      co: Collation, keys: seq<OrderKey>, xs: seq<JoinedRow>, ys: seq<JoinedRow>)
    requires TotalOrder(co) && StrictlySorted(co, keys, xs) && StrictlySorted(co, keys, ys)
    requires forall x :: x in xs <==> x in ys
    ensures xs == ys
    decreases |xs|
  {
    assert xs != [] ==> xs[0] in xs;
    assert ys != [] ==> ys[0] in ys;
    if xs != [] && ys != [] {
      FirstIsLeast(co, keys, xs, ys);
      BeforeIsIrreflexive(co, keys, xs[0]);
      assert forall x :: x in xs <==> x == xs[0] || x in xs[1..];
      assert forall y :: y in ys <==> y == ys[0] || y in ys[1..];
      assert xs[0] !in xs[1..] && ys[0] !in ys[1..];
      SortedListsAreEqual(co, keys, xs[1..], ys[1..]);
    }
  }
}
