/** Query complexity: two counters packed in one 32-bit integer. */
module Complexity {
  import opened JavaInt
  import opened Truth

  /** A selected field: a join or a plain field, or a field inside the introspection schema. */
  datatype Kind = Plain | Join | Introspection

  datatype Field = Field(kind: Kind, children: seq<Field>)

  datatype Limits = Limits(maxJoinFieldComplexity: int, maxNormalFieldComplexity: int)

  predicate Exceeds(complexity: int, l: Limits) {
    Remainder(complexity, 1000) > l.maxNormalFieldComplexity || Quotient(complexity, 1000) > l.maxJoinFieldComplexity
  }

  function Weight(kind: Kind): int {
    match kind
    case Introspection => -1000000
    case Join => 1000
    case Plain => 1
  }

  /** One field, given the complexity of its selection; none when the query is aborted. */
  function Calculate(kind: Kind, childComplexity: int, l: Limits): Option<int> {
    var complexity := Wrap(childComplexity + Weight(kind));
    if Exceeds(complexity, l) then None else Some(complexity)
  }

  /** Bottom-up over the query: the values of a selection are added up. */
  function Evaluate(f: Field, l: Limits): Option<int> {
    var below := EvaluateAll(f.children, l);
    if below.None? then None else Calculate(f.kind, below.value, l)
  }

  function EvaluateAll(fs: seq<Field>, l: Limits): Option<int> {
    if fs == [] then Some(0)
    else
      var first, rest := Evaluate(fs[0], l), EvaluateAll(fs[1..], l);
      if first.None? || rest.None? then None else Some(Wrap(first.value + rest.value))
  }

  // ---------------------------------------------------------------- the counters, unpacked

  function Count(kind: Kind, f: Field): nat {
    (if f.kind == kind then 1 else 0) + CountAll(kind, f.children)
  }

  function CountAll(kind: Kind, fs: seq<Field>): nat {
    if fs == [] then 0 else Count(kind, fs[0]) + CountAll(kind, fs[1..])
  }

  /** Everything at and below a field, in one unbounded number. */
  function Packed(f: Field): int {
    1000 * Count(Join, f) + Count(Plain, f) - 1000000 * Count(Introspection, f)
  }

  function PackedAll(fs: seq<Field>): int {
    1000 * CountAll(Join, fs) + CountAll(Plain, fs) - 1000000 * CountAll(Introspection, fs)
  }

  /** The field and every field below it pass their own test. */
  predicate AllPass(f: Field, l: Limits) {
    !Exceeds(Wrap(Packed(f)), l) && forall c :: c in f.children ==> AllPass(c, l)
  }

  /**
   On every query tree: it is aborted iff the test fails at some field, on the wrapped packed count of its subtree.
   */
  lemma {:induction false} AbortsIff(f: Field, l: Limits)
    ensures Evaluate(f, l) == if AllPass(f, l) then Some(Wrap(Packed(f))) else None
    decreases f
  {
    AbortsIffAll(f.children, l);
    WrapAdds(PackedAll(f.children), Weight(f.kind));
  }

  lemma {:induction false} AbortsIffAll(fs: seq<Field>, l: Limits)
    ensures EvaluateAll(fs, l) == if forall f :: f in fs ==> AllPass(f, l) then Some(Wrap(PackedAll(fs))) else None
    decreases fs
  {
    if fs != [] {
      AbortsIff(fs[0], l);
      AbortsIffAll(fs[1..], l);
      WrapAdds(Packed(fs[0]), Wrap(PackedAll(fs[1..])));
      WrapAdds(Packed(fs[0]), PackedAll(fs[1..]));
      assert forall f :: f in fs <==> f == fs[0] || f in fs[1..];
    }
  }

  /** A number is over the limits by what is left and what is carried when it is divided by 1000 toward zero. */
  lemma ExceedsIff(complexity: int, l: Limits)
    ensures Exceeds(complexity, l) <==>
              exists q, r :: IsDivision(complexity, 1000, q, r) &&
                             (r > l.maxNormalFieldComplexity || q > l.maxJoinFieldComplexity)
  {
    var q, r := Quotient(complexity, 1000), Remainder(complexity, 1000);
    DivisionIs(complexity, 1000, q, r);
    forall q', r'
      ensures IsDivision(complexity, 1000, q', r') <==> q' == q && r' == r
    {
      DivisionIs(complexity, 1000, q', r');
    }
  }

  // ---------------------------------------------------------------- when the counters do not run into each other

  predicate Fits(f: Field) {
    Count(Introspection, f) == 0 && Packed(f) < 0x8000_0000
  }

  lemma {:induction false} CountsBelow(kind: Kind, fs: seq<Field>, c: Field)
    requires c in fs
    ensures Count(kind, c) <= CountAll(kind, fs)
  {
    if c != fs[0] {
      CountsBelow(kind, fs[1..], c);
    }
  }

  /** The test at one field: plain fields modulo 1000, joins with the carry of the plain fields. */
  lemma TestIs(f: Field, l: Limits)
    requires Fits(f)
    ensures Exceeds(Wrap(Packed(f)), l) <==>
              Count(Plain, f) % 1000 > l.maxNormalFieldComplexity ||
              Count(Join, f) + Count(Plain, f) / 1000 > l.maxJoinFieldComplexity
  {
    var p, j := Count(Plain, f), Count(Join, f);
    assert Wrap(Packed(f)) == 1000 * j + p;
    assert 1000 * j + p == 1000 * (j + p / 1000) + p % 1000;
  }

  /** Below the carry a subtree passes everywhere iff its two counts are within their limits. */
  lemma {:induction false} PassesIff(f: Field, l: Limits)
    requires Fits(f) && Count(Plain, f) < 1000
    ensures AllPass(f, l) <==>
              Count(Plain, f) <= l.maxNormalFieldComplexity && Count(Join, f) <= l.maxJoinFieldComplexity
    decreases f
  {
    TestIs(f, l);
    forall c | c in f.children
      ensures Fits(c) && Count(Plain, c) <= Count(Plain, f) && Count(Join, c) <= Count(Join, f)
      ensures AllPass(c, l) <==>
                Count(Plain, c) <= l.maxNormalFieldComplexity && Count(Join, c) <= l.maxJoinFieldComplexity
    {
      CountsBelow(Plain, f.children, c);
      CountsBelow(Join, f.children, c);
      CountsBelow(Introspection, f.children, c);
      PassesIff(c, l);
    }
  }

  /**
   Below the carry the two counters are exact: a query of fewer than 1000 plain fields is aborted iff some
   top-level field has more plain fields or more joins than allowed.
   */
  lemma ExactBelowCarry(fields: seq<Field>, l: Limits)
    requires forall f :: f in fields ==> Fits(f)
    requires CountAll(Plain, fields) < 1000
    ensures EvaluateAll(fields, l).None? <==>
              exists f :: f in fields &&
                (Count(Plain, f) > l.maxNormalFieldComplexity || Count(Join, f) > l.maxJoinFieldComplexity)
  {
    AbortsIffAll(fields, l);
    forall f | f in fields
      ensures AllPass(f, l) <==>
                Count(Plain, f) <= l.maxNormalFieldComplexity && Count(Join, f) <= l.maxJoinFieldComplexity
    {
      CountsBelow(Plain, fields, f);
      PassesIff(f, l);
    }
  }

  // ---------------------------------------------------------------- above it

  function Leaves(kind: Kind, n: nat): seq<Field> {
    seq(n, i => Field(kind, []))
  }

  lemma {:induction false} LeavesCount(kind: Kind, n: nat, k: Kind)
    ensures CountAll(k, Leaves(kind, n)) == if k == kind then n else 0
  {
    if n > 0 {
      assert Leaves(kind, n)[1..] == Leaves(kind, n - 1) && Leaves(kind, n)[0] == Field(kind, []);
      LeavesCount(kind, n - 1, k);
    }
  }

  lemma LeafPasses(l: Limits)
    requires l.maxNormalFieldComplexity >= 1 && l.maxJoinFieldComplexity >= 0
    ensures AllPass(Field(Plain, []), l)
  {
    TestIs(Field(Plain, []), l);
  }

  /**
   Above the carry the test is on the digits: a join that selects n plain fields passes iff n modulo 1000 is within
   the limit of plain fields and n / 1000 joins more than it has are. With n = 1000, any limit of plain fields passes.
   */
  lemma WideSelection(n: nat, l: Limits)
    requires n + 1000 < 0x8000_0000 && l.maxNormalFieldComplexity >= 1 && l.maxJoinFieldComplexity >= 0
    ensures var f := Field(Join, Leaves(Plain, n));
            Count(Plain, f) == n && Count(Join, f) == 1 &&
            (Evaluate(f, l).Some? <==>
             n % 1000 <= l.maxNormalFieldComplexity && 1 + n / 1000 <= l.maxJoinFieldComplexity)
  {
    var f := Field(Join, Leaves(Plain, n));
    LeavesCount(Plain, n, Plain);
    LeavesCount(Plain, n, Join);
    LeavesCount(Plain, n, Introspection);
    TestIs(f, l);
    forall c | c in f.children
      ensures AllPass(c, l)
    {
      LeafPasses(l);
    }
    AbortsIff(f, l);
  }
  // ---------------------------------------------------------------- below zero

  /** Fields of the introspection schema make the number negative, and a negative number is within all limits. */
  lemma NegativePasses(complexity: int, l: Limits)
    requires complexity <= 0 && l.maxNormalFieldComplexity >= 0 && l.maxJoinFieldComplexity >= 0
    ensures !Exceeds(complexity, l)
  {
  }

  /**
   A field with n introspection fields below it: the discount of a million each wraps around at 2148 of them, and
   the query then counts as one of more than two million joins.
   */
  lemma WideIntrospection(n: nat, l: Limits)
    requires 0 < n < 4294 && l.maxNormalFieldComplexity >= 0 && l.maxJoinFieldComplexity >= 0
    ensures var f := Field(Plain, Leaves(Introspection, n));
            Evaluate(f, l).Some? <==>
              n <= 2147 ||
              ((4294967297 - 1000000 * n) % 1000 <= l.maxNormalFieldComplexity &&
               (4294967297 - 1000000 * n) / 1000 <= l.maxJoinFieldComplexity)
  {
    var f := Field(Plain, Leaves(Introspection, n));
    LeavesCount(Introspection, n, Plain);
    LeavesCount(Introspection, n, Join);
    LeavesCount(Introspection, n, Introspection);
    assert Packed(f) == 1 - 1000000 * n;
    forall c | c in f.children
      ensures AllPass(c, l)
    {
      assert Packed(c) == -1000000 && Wrap(-1000000) == -1000000;
    }
    AbortsIff(f, l);
    assert Wrap(Packed(f)) == if n <= 2147 then 1 - 1000000 * n else 4294967297 - 1000000 * n;
  }
}
