/** Splitting and joining names around a separator character, and names made of digits. */
module Names {
  /** The text before the first c (all of it when there is none). */
  function BeforeFirst(s: string, c: char): string {
    if s == "" || s[0] == c then "" else [s[0]] + BeforeFirst(s[1..], c)
  }

  /** The text after the first c. */
  function AfterFirst(s: string, c: char): string {
    if s == "" then "" else if s[0] == c then s[1..] else AfterFirst(s[1..], c)
  }

  /** The text before the last c. */
  function BeforeLast(s: string, c: char): string {
    if s == "" then "" else if s[|s| - 1] == c then s[..|s| - 1] else BeforeLast(s[..|s| - 1], c)
  }

  /** The text after the last c (all of it when there is none). */
  function AfterLast(s: string, c: char): string {
    if s == "" || s[|s| - 1] == c then "" else AfterLast(s[..|s| - 1], c) + [s[|s| - 1]]
  }

  lemma {:induction false} SplitsFirst(a: string, c: char, b: string)
    requires c !in a
    ensures BeforeFirst(a + [c] + b, c) == a && AfterFirst(a + [c] + b, c) == b
  {
    if a != "" {
      assert (a + [c] + b)[1..] == a[1..] + [c] + b;
      SplitsFirst(a[1..], c, b);
    } else {
      assert ([] + [c] + b)[1..] == b;
    }
  }

  lemma {:induction false} SplitsLast(a: string, c: char, b: string)
    requires c !in b
    ensures BeforeLast(a + [c] + b, c) == a && AfterLast(a + [c] + b, c) == b
  {
    var s := a + [c] + b;
    if b != "" {
      assert s[..|s| - 1] == a + [c] + b[..|b| - 1];
      SplitsLast(a, c, b[..|b| - 1]);
    } else {
      assert s[..|s| - 1] == a;
    }
  }

  /** String.join(".", path) */
  function Dotted(path: seq<string>): string {
    if path == [] then "" else if |path| == 1 then path[0]
    else Dotted(path[..|path| - 1]) + "." + path[|path| - 1]
  }

  /** A GraphQL name (section 2.1.9 of the GraphQL specification): no dot and no equals sign occurs in one. */
  predicate IsName(s: string) {
    s != "" && forall c :: c in s ==> c == '_' || 'a' <= c <= 'z' || 'A' <= c <= 'Z' || '0' <= c <= '9'
  }

  predicate AreNames(path: seq<string>) {
    forall n :: n in path ==> IsName(n)
  }

  lemma DottedSplits(path: seq<string>, name: string)
    requires path != [] && '.' !in name
    ensures Dotted(path + [name]) == Dotted(path) + "." + name
    ensures BeforeLast(Dotted(path + [name]), '.') == Dotted(path)
    ensures AfterLast(Dotted(path + [name]), '.') == name
  {
    assert (path + [name])[..|path|] == path;
    assert Dotted(path + [name]) == Dotted(path) + ['.'] + name;
    SplitsLast(Dotted(path), '.', name);
  }

  lemma {:induction false} DottedHasNoEquals(path: seq<string>)
    requires AreNames(path)
    ensures '=' !in Dotted(path)
  {
    if |path| > 1 {
      DottedHasNoEquals(path[..|path| - 1]);
      assert path[|path| - 1] in path;
    } else if |path| == 1 {
      assert path[0] in path;
    }
  }

  lemma {:induction false} DotCount(path: seq<string>)
    requires path != [] && AreNames(path)
    ensures '.' in Dotted(path) <==> |path| > 1
  {
    assert path[0] in path;
    if |path| > 1 {
      assert '.' in ".";
    }
  }

  lemma DottedUnfolds(path: seq<string>)
    requires |path| > 1 && AreNames(path)
    ensures AreNames(path[..|path| - 1]) && path == path[..|path| - 1] + [path[|path| - 1]]
    ensures BeforeLast(Dotted(path), '.') == Dotted(path[..|path| - 1])
    ensures AfterLast(Dotted(path), '.') == path[|path| - 1]
  {
    var init, last := path[..|path| - 1], path[|path| - 1];
    assert path == init + [last] && last in path;
    DottedSplits(init, last);
  }

  /** Dotted paths of names are injective. */
  lemma {:induction false} DottedIsInjective(p: seq<string>, q: seq<string>)
    requires p != [] && q != [] && AreNames(p) && AreNames(q)
    ensures Dotted(p) == Dotted(q) <==> p == q
    decreases |p|
  {
    if Dotted(p) == Dotted(q) {
      DotCount(p);
      DotCount(q);
      if |p| > 1 {
        DottedUnfolds(p);
        DottedUnfolds(q);
        DottedIsInjective(p[..|p| - 1], q[..|q| - 1]);
      }
    }
  }

  /** The decimal digits of a number. */
  function NatText(n: nat): string {
    (if n < 10 then "" else NatText(n / 10)) + [('0' as int + n % 10) as char]
  }

  function TextNat(s: string): int {
    if s == "" then 0 else 10 * TextNat(s[..|s| - 1]) + (s[|s| - 1] as int - '0' as int)
  }

  lemma {:induction false} TextNatUndoes(n: nat)
    ensures TextNat(NatText(n)) == n
    decreases n
  {
    var s := NatText(n);
    if n >= 10 {
      TextNatUndoes(n / 10);
      assert s[..|s| - 1] == NatText(n / 10);
    } else {
      assert s[..|s| - 1] == "";
    }
  }

  /** A number as it is written: digits without leading zeros, behind a minus sign when it is negative. */
  predicate IsDecimal(s: string, n: int) {
    if n < 0 then s != "" && s[0] == '-' && IsNatural(s[1..], -n) else IsNatural(s, n)
  }

  predicate IsNatural(s: string, n: nat) {
    s != "" && (forall c :: c in s ==> '0' <= c <= '9') && (|s| > 1 ==> s[0] != '0') && TextNat(s) == n
  }

  lemma {:induction false} NatTextIsNatural(n: nat)
    ensures IsNatural(NatText(n), n) && (n > 0 ==> NatText(n)[0] != '0')
    decreases n
  {
    TextNatUndoes(n);
    if n >= 10 {
      NatTextIsNatural(n / 10);
      assert NatText(n)[0] == NatText(n / 10)[0];
    }
  }

  lemma NumberTextIsDecimal(n: int)
    ensures IsDecimal(if n < 0 then "-" + NatText(-n) else NatText(n), n)
  {
    NatTextIsNatural(if n < 0 then -n else n);
    if n < 0 {
      assert ("-" + NatText(-n))[1..] == NatText(-n);
    }
  }

  lemma {:induction false} NatTextHasNoDot(n: nat)
    ensures '.' !in NatText(n)
    decreases n
  {
    if n >= 10 {
      NatTextHasNoDot(n / 10);
    }
  }
}
