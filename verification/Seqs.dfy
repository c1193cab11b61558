/** Small functions on sequences. */
module Seqs {
  import opened Truth

  function Keep<T(!new)>(s: seq<T>, p: T -> bool): (r: seq<T>)
    ensures forall x :: x in r <==> x in s && p(x)
  {
    if s == [] then [] else if p(s[0]) then [s[0]] + Keep(s[1..], p) else Keep(s[1..], p)
  }

  lemma {:induction false} KeepSnoc<T(!new)>(s: seq<T>, x: T, p: T -> bool)
    ensures Keep(s + [x], p) == Keep(s, p) + if p(x) then [x] else []
  {
    if s != [] {
      assert (s + [x])[1..] == s[1..] + [x];
      KeepSnoc(s[1..], x, p);
    } else {
      assert [] + [x] == [x] && [x][1..] == [];
    }
  }

  lemma {:induction false} KeepDistinct<T(!new)>(s: seq<T>, p: T -> bool)
    requires Distinct(s)
    ensures Distinct(Keep(s, p))
  {
    if s != [] {
      KeepDistinct(s[1..], p);
      assert forall x :: x in Keep(s[1..], p) ==> x != s[0];
    }
  }

  function Map<S, T>(s: seq<S>, f: S -> T): (r: seq<T>)
    ensures |r| == |s| && forall i :: 0 <= i < |s| ==> r[i] == f(s[i])
  {
    seq(|s|, i requires 0 <= i < |s| => f(s[i]))
  }

  lemma MapHas<S, T>(s: seq<S>, f: S -> T, x: S)
    ensures x in s ==> f(x) in Map(s, f)
  {
    if x in s {
      var i :| 0 <= i < |s| && s[i] == x;
      assert Map(s, f)[i] == f(x);
    }
  }

  function FlatMap<S, T>(s: seq<S>, f: S -> seq<T>): seq<T> {
    if s == [] then [] else f(s[0]) + FlatMap(s[1..], f)
  }

  lemma {:induction false} FlatMapMember<S, T>(s: seq<S>, f: S -> seq<T>, y: T)
    ensures y in FlatMap(s, f) <==> exists x :: x in s && y in f(x)
  {
    if s != [] {
      FlatMapMember(s[1..], f, y);
      assert forall x :: x in s <==> x == s[0] || x in s[1..];
    }
  }

  /** OFFSET, then LIMIT. */
  function Slice<T>(s: seq<T>, skip: Option<nat>, limit: Option<nat>): seq<T> {
    var from := if skip.None? then 0 else if skip.value < |s| then skip.value else |s|;
    var to := if limit.Some? && from + limit.value < |s| then from + limit.value else |s|;
    s[from..to]
  }

  /** The elements from the one after those skipped, as many as there are up to the limit. */
  lemma SliceAt<T>(s: seq<T>, skip: Option<nat>, limit: Option<nat>) returns (from: nat)
    ensures from + |Slice(s, skip, limit)| <= |s|
    ensures var skipped := match skip case Some(n) => n case None => 0;
            from == (if skipped < |s| then skipped else |s|) &&
            match limit
            case None => |Slice(s, skip, limit)| == |s| - from
            case Some(n) => |Slice(s, skip, limit)| == if |s| - from < n then |s| - from else n
    ensures forall i :: 0 <= i < |Slice(s, skip, limit)| ==> Slice(s, skip, limit)[i] == s[from + i]
  {
    from := if skip.None? then 0 else if skip.value < |s| then skip.value else |s|;
  }

  predicate Distinct<T(==)>(s: seq<T>) {
    forall i, j :: 0 <= i < j < |s| ==> s[i] != s[j]
  }
}
