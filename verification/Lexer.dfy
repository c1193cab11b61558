/** Named parameters in SQL text: the scanner that replaces `:name` by `?`. */
module Lexer {
  import opened Truth

  /** Which characters start and continue an identifier. */
  datatype Alphabet = Alphabet(start: char -> bool, part: char -> bool)

  datatype Mode = Normal | SingleQuote | DoubleQuote | BlockComment | LineComment

  /**
   The scanned text, piece by piece: a character as it is, with the mode the scanner reads it in, or a parameter in
   place of `:name`.
   */
  datatype Piece = Plain(c: char, inside: Mode) | Param(name: string)

  /** The scanner reads one character past the end of some texts. */
  datatype Scanned = Scanned(pieces: seq<Piece>) | OutOfBounds

  function TextOf(ps: seq<Piece>): string {
    if ps == [] then "" else [if ps[0].Plain? then ps[0].c else '?'] + TextOf(ps[1..])
  }

  function NamesOf(ps: seq<Piece>): seq<string> {
    if ps == [] then [] else (if ps[0].Param? then [ps[0].name] else []) + NamesOf(ps[1..])
  }

  function SourceOf(ps: seq<Piece>): string {
    if ps == [] then "" else (if ps[0].Plain? then [ps[0].c] else ":" + ps[0].name) + SourceOf(ps[1..])
  }

  function Before(ps: seq<Piece>, rest: Scanned): Scanned {
    if rest.OutOfBounds? then rest else Scanned(ps + rest.pieces)
  }

  /** How many characters at the front are identifier characters. */
  function WordLength(a: Alphabet, s: string): (n: nat)
    ensures n <= |s|
  {
    if s == "" || !a.part(s[0]) then 0 else 1 + WordLength(a, s[1..])
  }

  /** A parameter starts here; its name. */
  function NameAt(a: Alphabet, s: string): Option<string> {
    if |s| > 1 && s[0] == ':' && a.start(s[1]) then Some(s[1..2 + WordLength(a, s[2..])]) else None
  }

  /** The mode after the first character, or none when the scanner looks past the end. */
  function NextMode(s: string, mode: Mode): Option<Mode>
    requires s != ""
  {
    var c := s[0];
    match mode
    case SingleQuote => Some(if c == '\'' then Normal else mode)
    case DoubleQuote => Some(if c == '"' then Normal else mode)
    case BlockComment =>
      if c != '*' then Some(mode) else if |s| == 1 then None else Some(if s[1] == '/' then Normal else mode)
    case LineComment => Some(if c == '\n' then Normal else mode)
    case Normal =>
      if c == '\'' then Some(SingleQuote)
      else if c == '"' then Some(DoubleQuote)
      else if c == '/' || c == '-' then
        if |s| == 1 then None
        else if c == '/' && s[1] == '*' then Some(BlockComment)
        else if c == '-' && s[1] == '-' then Some(LineComment)
        else Some(mode)
      else Some(mode)
  }

  function Scan(a: Alphabet, s: string, mode: Mode): Scanned
    decreases |s|
  {
    if s == "" then Scanned([])
    else
      var name := if mode.Normal? then NameAt(a, s) else None;
      if name.Some? then Before([Param(name.value)], Scan(a, s[1 + |name.value|..], Normal))
      else
        var next := NextMode(s, mode);
        if next.None? then OutOfBounds else Before([Plain(s[0], mode)], Scan(a, s[1..], next.value))
  }

  predicate FlagsShow(mode: Mode, single: bool, double: bool, line: bool, block: bool) {
    single == mode.SingleQuote? && double == mode.DoubleQuote? && line == mode.LineComment? &&
    block == mode.BlockComment?
  }

  lemma BeforeBefore(ps: seq<Piece>, qs: seq<Piece>, rest: Scanned)
    ensures Before(ps, Before(qs, rest)) == Before(ps + qs, rest)
  {
    if rest.Scanned? {
      assert ps + (qs + rest.pieces) == (ps + qs) + rest.pieces;
    }
  }

  /** The text up to i has become `done`, and the scanner is in this mode. */
  predicate Underway(a: Alphabet, sql: string, i: nat, mode: Mode, done: seq<Piece>) {
    i <= |sql| && Scan(a, sql, Normal) == Before(done, Scan(a, sql[i..], mode))
  }

  lemma UnderwayNext(a: Alphabet, sql: string, i: nat, mode: Mode, done: seq<Piece>)
    requires i < |sql| && Underway(a, sql, i, mode, done)
    ensures var s := sql[i..]; var name := if mode.Normal? then NameAt(a, s) else None;
            (name.Some? ==> Underway(a, sql, i + 1 + |name.value|, Normal, done + [Param(name.value)])) &&
            (name.None? && NextMode(s, mode).None? ==> Scan(a, sql, Normal).OutOfBounds?) &&
            (name.None? && NextMode(s, mode).Some? ==>
               Underway(a, sql, i + 1, NextMode(s, mode).value, done + [Plain(s[0], mode)]))
  {
    var s := sql[i..];
    var name := if mode.Normal? then NameAt(a, s) else None;
    assert s[1..] == sql[i + 1..];
    if name.Some? {
      var rest := sql[i + 1 + |name.value|..];
      assert s[1 + |name.value|..] == rest;
      BeforeBefore(done, [Param(name.value)], Scan(a, rest, Normal));
    } else if NextMode(s, mode).Some? {
      BeforeBefore(done, [Plain(s[0], mode)], Scan(a, s[1..], NextMode(s, mode).value));
    }
  }

  /** The name of the parameter that starts at i. */
  method ReadName(a: Alphabet, sql: string, i: nat) returns (name: string)
    requires i + 1 < |sql| && sql[i] == ':' && a.start(sql[i + 1])
    ensures NameAt(a, sql[i..]) == Some(name)
  {
    var j := i + 2;
    while j < |sql| && a.part(sql[j])
      invariant i + 2 <= j <= |sql| && WordLength(a, sql[i + 2..]) == j - (i + 2) + WordLength(a, sql[j..])
    {
      assert sql[j..][1..] == sql[j + 1..];
      j := j + 1;
    }
    name := sql[i + 1..j];
    assert sql[i..][2..] == sql[i + 2..] && sql[i..][1] == sql[i + 1];
    assert sql[i..][1..2 + WordLength(a, sql[i + 2..])] == name;
  }

  /** What a character that is no parameter does to the four flags; none when the scanner looks past the end. */
  method Switch(
      sql: string, i: nat, inSingleQuote: bool, inDoubleQuote: bool, inSingleLineComment: bool,
      inMultiLineComment: bool, ghost mode: Mode)
    returns (ok: bool, single: bool, double: bool, line: bool, block: bool)
    requires i < |sql| && FlagsShow(mode, inSingleQuote, inDoubleQuote, inSingleLineComment, inMultiLineComment)
    ensures ok <==> NextMode(sql[i..], mode).Some?
    ensures ok ==> FlagsShow(NextMode(sql[i..], mode).value, single, double, line, block)
  {
    ok := true;
    single, double, line, block := inSingleQuote, inDoubleQuote, inSingleLineComment, inMultiLineComment;
    var c := sql[i];
    if inSingleQuote {
      single := c != '\'';
    } else if inDoubleQuote {
      double := c != '"';
    } else if inMultiLineComment {
      if c == '*' {
        if i + 1 == |sql| {
          return false, single, double, line, block;
        }
        block := sql[i + 1] != '/';
      }
    } else if inSingleLineComment {
      line := c != '\n';
    } else if c == '\'' {
      single := true;
    } else if c == '"' {
      double := true;
    } else if c == '/' || c == '-' {
      if i + 1 == |sql| {
        return false, single, double, line, block;
      }
      block := c == '/' && sql[i + 1] == '*';
      line := c == '-' && sql[i + 1] == '-';
    }
  }

  /** The scanner's loop over the text, with its four flags. */
  method PrepareStatement(a: Alphabet, sql: string) returns (text: Option<string>, names: seq<string>)
    ensures var scanned := Scan(a, sql, Normal);
            text == (if scanned.OutOfBounds? then None else Some(TextOf(scanned.pieces))) &&
            (text.Some? ==> names == NamesOf(scanned.pieces))
  {
    names := [];
    var parsedQuery := "";
    var inSingleQuote, inDoubleQuote, inSingleLineComment, inMultiLineComment := false, false, false, false;
    var i := 0;
    ghost var mode, done := Normal, [];
    assert sql[0..] == sql;
    while i < |sql|
      invariant Underway(a, sql, i, mode, done) && parsedQuery == TextOf(done) && names == NamesOf(done)
      invariant FlagsShow(mode, inSingleQuote, inDoubleQuote, inSingleLineComment, inMultiLineComment)
    {
      UnderwayNext(a, sql, i, mode, done);
      var c := sql[i];
      var outside := !inSingleQuote && !inDoubleQuote && !inSingleLineComment && !inMultiLineComment;
      if outside && c == ':' && i + 1 < |sql| && a.start(sql[i + 1]) {
        var name := ReadName(a, sql, i);
        Appended(done, Param(name));
        names, parsedQuery := names + [name], parsedQuery + ['?'];
        i := i + 1 + |name|;
        done := done + [Param(name)];
      } else {
        Appended(done, Plain(c, mode));
        ghost var next := NextMode(sql[i..], mode);
        var ok;
        ok, inSingleQuote, inDoubleQuote, inSingleLineComment, inMultiLineComment :=
          Switch(sql, i, inSingleQuote, inDoubleQuote, inSingleLineComment, inMultiLineComment, mode);
        if !ok {
          return None, names;
        }
        parsedQuery := parsedQuery + [c];
        i := i + 1;
        mode, done := next.value, done + [Plain(c, mode)];
      }
    }
    assert sql[|sql|..] == "" && done + [] == done;
    text := Some(parsedQuery);
  }

  lemma {:induction false} Appended(ps: seq<Piece>, p: Piece)
    ensures TextOf(ps + [p]) == TextOf(ps) + [if p.Plain? then p.c else '?']
    ensures NamesOf(ps + [p]) == NamesOf(ps) + if p.Param? then [p.name] else []
  {
    if ps != [] {
      assert (ps + [p])[1..] == ps[1..] + [p];
      Appended(ps[1..], p);
    } else {
      assert ps + [p] == [p] && [p][1..] == [];
    }
  }

  // ---------------------------------------------------------------- laws of the scanner

  /** Putting the names back where the scanner put a `?` gives the original text. */
  lemma {:induction false} ScanUndoes(a: Alphabet, s: string, mode: Mode)
    requires Scan(a, s, mode).Scanned?
    ensures SourceOf(Scan(a, s, mode).pieces) == s
    decreases |s|
  {
    if s != "" {
      var name := if mode.Normal? then NameAt(a, s) else None;
      if name.Some? {
        var rest := s[1 + |name.value|..];
        ScanUndoes(a, rest, Normal);
        assert Scan(a, s, mode).pieces[1..] == Scan(a, rest, Normal).pieces;
        assert s == ":" + name.value + rest;
      } else {
        ScanUndoes(a, s[1..], NextMode(s, mode).value);
        assert Scan(a, s, mode).pieces[1..] == Scan(a, s[1..], NextMode(s, mode).value).pieces;
      }
    }
  }

  /** The pieces of the result when it is scanned again: its `?` are characters outside quotes and comments. */
  function Settled(ps: seq<Piece>): seq<Piece> {
    seq(|ps|, i requires 0 <= i < |ps| => if ps[i].Param? then Plain('?', Normal) else ps[i])
  }

  /** Scanning the result again finds no parameter, changes nothing and reads every character in the same mode. */
  lemma {:induction false} ScanIsIdempotent(a: Alphabet, s: string, mode: Mode)
    requires Scan(a, s, mode).Scanned? && !a.start('?')
    ensures Scan(a, TextOf(Scan(a, s, mode).pieces), mode) == Scanned(Settled(Scan(a, s, mode).pieces))
    decreases |s|
  {
    if s != "" {
      var name := if mode.Normal? then NameAt(a, s) else None;
      var rest := if name.Some? then s[1 + |name.value|..] else s[1..];
      var next := if name.Some? then Normal else NextMode(s, mode).value;
      ScanIsIdempotent(a, rest, next);
      SameStep(a, s, mode, rest, next);
      var ps, later := Scan(a, s, mode).pieces, Scan(a, rest, next).pieces;
      ScanStep(a, TextOf(ps), mode, next);
      SettledStep(ps, later, mode);
    }
  }

  lemma ScanStep(a: Alphabet, t: string, mode: Mode, next: Mode)
    requires t != "" && (mode.Normal? ==> NameAt(a, t).None?) && NextMode(t, mode) == Some(next)
    ensures Scan(a, t, mode) == Before([Plain(t[0], mode)], Scan(a, t[1..], next))
  {
  }

  lemma SettledStep(ps: seq<Piece>, later: seq<Piece>, mode: Mode)
    requires ps != [] && ps[1..] == later && (ps[0].Plain? ==> ps[0].inside == mode) &&
             (ps[0].Param? ==> mode == Normal)
    ensures Settled(ps) == [Plain(TextOf(ps)[0], mode)] + Settled(later)
  {
  }

  /** The scanner takes the same step on the result as on the text. */
  lemma SameStep(a: Alphabet, s: string, mode: Mode, rest: string, next: Mode)
    requires s != "" && Scan(a, s, mode).Scanned? && !a.start('?')
    requires var name := if mode.Normal? then NameAt(a, s) else None;
             rest == (if name.Some? then s[1 + |name.value|..] else s[1..]) &&
             (if name.Some? then next == Normal else NextMode(s, mode) == Some(next))
    ensures var t := TextOf(Scan(a, s, mode).pieces);
            t != "" && NextMode(t, mode) == Some(next) && (mode.Normal? ==> NameAt(a, t).None?) &&
            Scan(a, rest, next).Scanned? && t[1..] == TextOf(Scan(a, rest, next).pieces)
  {
    var ps, later := Scan(a, s, mode).pieces, Scan(a, rest, next).pieces;
    assert ps[1..] == later;
    FirstOf(a, rest, next);
    if ps[0].Plain? {
      assert s == [s[0]] + rest && TextOf(ps) == [s[0]] + TextOf(later);
      SameNext(a, s[0], rest, TextOf(later), mode);
    }
  }

  /** What follows a character matters to the scanner only in its first character, and a `?` is no more than a colon. */
  lemma SameNext(a: Alphabet, c: char, x: string, y: string, mode: Mode)
    requires (x == "" <==> y == "") && (x != "" ==> y[0] == x[0] || (x[0] == ':' && y[0] == '?')) && !a.start('?')
    ensures NextMode([c] + y, mode) == NextMode([c] + x, mode)
    ensures NameAt(a, [c] + x).None? ==> NameAt(a, [c] + y).None?
  {
  }

  /** The first character of the result is the first of the text, or a `?` in place of a colon. */
  lemma FirstOf(a: Alphabet, s: string, mode: Mode)
    requires Scan(a, s, mode).Scanned?
    ensures var t := TextOf(Scan(a, s, mode).pieces);
            (t == "" <==> s == "") && (s != "" ==> t[0] == s[0] || (mode.Normal? && s[0] == ':' && t[0] == '?'))
  {
  }

  /** The mode in which the last character is read. */
  function LastMode(a: Alphabet, s: string, mode: Mode): Option<Mode>
    decreases |s|
  {
    if s == "" then None
    else
      var name := if mode.Normal? then NameAt(a, s) else None;
      if name.Some? then LastMode(a, s[1 + |name.value|..], Normal)
      else if |s| == 1 then Some(mode)
      else LastMode(a, s[1..], NextMode(s, mode).value)
  }

  /**
   The scanner fails exactly on a slash or dash that ends the text outside quotes and comments, or a star that ends
   an open comment.
   */
  lemma {:induction false} FailsIff(a: Alphabet, s: string, mode: Mode)
    ensures Scan(a, s, mode).OutOfBounds? <==>
              s != "" && ((LastMode(a, s, mode) == Some(Normal) && s[|s| - 1] in {'/', '-'}) ||
                          (LastMode(a, s, mode) == Some(BlockComment) && s[|s| - 1] == '*'))
    decreases |s|
  {
    if s != "" {
      var name := if mode.Normal? then NameAt(a, s) else None;
      if name.Some? {
        FailsIff(a, s[1 + |name.value|..], Normal);
      } else if NextMode(s, mode).Some? {
        FailsIff(a, s[1..], NextMode(s, mode).value);
      }
    }
  }

  // ---------------------------------------------------------------- an independent reading of SQL text

  /**
   The lexical elements of a statement, as far as parameters are concerned (cf. section 5.2 of ISO/IEC 9075:1992), with
   block comments and the casts `::type` of PostgreSQL. They cover the statements in which every quote and every block
   comment is closed. A comment ends at its first closing slash: comments inside comments, which PostgreSQL nests, and
   dollar quotes are not part of the grammar.
   */
  datatype Token =
    | Literal(body: string)
    | Identifier(body: string)
    | Dashes(body: string, newline: bool)
    | Block(body: string)
    | Cast(typeName: string)
    | Parameter(name: string)
    | Other(c: char)

  function Print(t: Token): string {
    match t
    case Literal(body) => "'" + body + "'"
    case Identifier(body) => ['"'] + body + ['"']
    case Dashes(body, newline) => "--" + body + if newline then "\n" else ""
    case Block(body) => "/*" + body + "*/"
    case Cast(typeName) => "::" + typeName
    case Parameter(name) => ":" + name
    case Other(c) => [c]
  }

  function PrintAll(ts: seq<Token>): string {
    if ts == [] then "" else Print(ts[0]) + PrintAll(ts[1..])
  }

  predicate Closes(s: string, k: nat) {
    k + 1 < |s| && s[k] == '*' && s[k + 1] == '/'
  }

  predicate IsWord(a: Alphabet, w: string, rest: string) {
    w != "" && a.start(w[0]) && (forall c :: c in w[1..] ==> a.part(c)) && (rest != "" ==> !a.part(rest[0]))
  }

  /** The characters that open something when this one follows. */
  predicate Opens(c: char, rest: string) {
    rest != "" && ((c == '/' && rest[0] == '*') || (c == '-' && rest[0] == '-'))
  }

  /** The element is what it says, before the rest of the text. */
  predicate Fits(a: Alphabet, t: Token, rest: string) {
    match t
    case Literal(body) => '\'' !in body
    case Identifier(body) => '"' !in body
    case Dashes(body, newline) => '\n' !in body && (newline || rest == "")
    case Block(body) => forall k: nat | k < |body| :: !Closes(body, k)
    case Cast(typeName) => IsWord(a, typeName, rest)
    case Parameter(name) => IsWord(a, name, rest)
    case Other(c) =>
      c != '\'' && c != '"' && !Opens(c, rest) &&
      (c == ':' && rest != "" ==> !a.start(rest[0]) && !(|rest| > 1 && rest[0] == ':' && a.start(rest[1])))
  }

  predicate FitAll(a: Alphabet, ts: seq<Token>) {
    ts == [] || (Fits(a, ts[0], PrintAll(ts[1..])) && FitAll(a, ts[1..]))
  }

  function Copied(s: string, inside: Mode): seq<Piece> {
    seq(|s|, i requires 0 <= i < |s| => Plain(s[i], inside))
  }

  /**
   What a scanner should do with an element: replace a parameter and copy everything else, the body of a literal, quoted
   identifier or comment inside it, the rest outside. A comment is over once its closing star is read.
   */
  function Meant(t: Token): seq<Piece> {
    match t
    case Literal(body) => Copied("'", Normal) + Copied(body + "'", SingleQuote)
    case Identifier(body) => Copied(['"'], Normal) + Copied(body + ['"'], DoubleQuote)
    case Dashes(body, newline) => Copied("-", Normal) + Copied("-" + body + if newline then "\n" else "", LineComment)
    case Block(body) => Copied("/", Normal) + Copied("*" + body + "*", BlockComment) + Copied("/", Normal)
    case Cast(typeName) => Copied("::" + typeName, Normal)
    case Parameter(name) => [Param(name)]
    case Other(c) => Copied([c], Normal)
  }

  function MeantAll(ts: seq<Token>): seq<Piece> {
    if ts == [] then [] else Meant(ts[0]) + MeantAll(ts[1..])
  }

  function ParametersOf(ts: seq<Token>): seq<string> {
    if ts == [] then [] else (if ts[0].Parameter? then [ts[0].name] else []) + ParametersOf(ts[1..])
  }

  predicate Special(c: char) {
    c == ':' || c == '?' || c == '\'' || c == '"' || c == '/' || c == '*' || c == '-' || c == '\n'
  }

  /** Identifiers have nothing in common with the characters the scanner and the grammar look for. */
  predicate SqlAlphabet(a: Alphabet) {
    !a.start(':') && !a.start('?') && forall c | Special(c) :: !a.start(c) && !a.part(c)
  }

  /**
   What the scanner understands: no cast; no comment that begins with a slash, or whose closing slash is followed by a
   star or by nothing; no slash or dash at the end of the text.
   */
  predicate Understood(t: Token, rest: string) {
    match t
    case Cast(_) => false
    case Block(body) => ClosedProperly(body, rest)
    case Other(c) => c == '/' || c == '-' ==> rest != ""
    case _ => true
  }

  predicate ClosedProperly(body: string, rest: string) {
    (body != "" ==> body[0] != '/') && rest != "" && rest[0] != '*'
  }

  predicate AllUnderstood(ts: seq<Token>) {
    ts == [] || (Understood(ts[0], PrintAll(ts[1..])) && AllUnderstood(ts[1..]))
  }

  // ---------------------------------------------------------------- one element

  lemma CopiedSplits(x: string, y: string, inside: Mode)
    ensures Copied(x + y, inside) == Copied(x, inside) + Copied(y, inside)
  {
  }

  lemma NothingBefore(rest: Scanned)
    ensures Before([], rest) == rest
  {
  }

  lemma OneMore(c: char, s: string, inside: Mode, rest: Scanned)
    ensures Before([Plain(c, inside)], Before(Copied(s, inside), rest)) == Before(Copied([c] + s, inside), rest)
  {
    BeforeBefore([Plain(c, inside)], Copied(s, inside), rest);
    assert Copied([c] + s, inside) == [Plain(c, inside)] + Copied(s, inside);
  }

  /** One step that is no parameter. */
  lemma StepCopies(a: Alphabet, c: char, rest: string, mode: Mode)
    requires !(mode.Normal? && NameAt(a, [c] + rest).Some?)
    ensures Scan(a, [c] + rest, mode) ==
              match NextMode([c] + rest, mode)
              case None => OutOfBounds
              case Some(next) => Before(Copied([c], mode), Scan(a, rest, next))
  {
    assert ([c] + rest)[1..] == rest && Copied([c], mode) == [Plain(c, mode)];
  }

  /** A body that does not close its mode is copied. */
  lemma {:induction false} BodyCopied(a: Alphabet, body: string, rest: string, mode: Mode)
    requires mode == SingleQuote || mode == DoubleQuote || mode == LineComment
    requires forall c :: c in body ==> NextMode([c], mode) == Some(mode)
    ensures Scan(a, body + rest, mode) == Before(Copied(body, mode), Scan(a, rest, mode))
    decreases |body|
  {
    if body == "" {
      assert body + rest == rest && Copied(body, mode) == [];
      NothingBefore(Scan(a, rest, mode));
    } else {
      assert body + rest == [body[0]] + (body[1..] + rest) && body == [body[0]] + body[1..];
      assert NextMode(body + rest, mode) == NextMode([body[0]], mode);
      StepCopies(a, body[0], body[1..] + rest, mode);
      BodyCopied(a, body[1..], rest, mode);
      OneMore(body[0], body[1..], mode, Scan(a, rest, mode));
    }
  }

  lemma {:induction false} BlockCopied(a: Alphabet, body: string, rest: string)
    requires forall k: nat | k < |body| :: !Closes(body, k)
    requires rest != "" && rest[0] != '/'
    ensures Scan(a, body + rest, BlockComment) == Before(Copied(body, BlockComment), Scan(a, rest, BlockComment))
    decreases |body|
  {
    if body == "" {
      assert body + rest == rest && Copied(body, BlockComment) == [];
      NothingBefore(Scan(a, rest, BlockComment));
    } else {
      assert body + rest == [body[0]] + (body[1..] + rest) && body == [body[0]] + body[1..];
      assert !Closes(body, 0);
      forall k: nat | k < |body[1..]|
        ensures !Closes(body[1..], k)
      {
        assert !Closes(body, k + 1);
      }
      StepCopies(a, body[0], body[1..] + rest, BlockComment);
      BlockCopied(a, body[1..], rest);
      OneMore(body[0], body[1..], BlockComment, Scan(a, rest, BlockComment));
    }
  }

  /** An element with a body is copied as a whole, its body inside. */
  lemma QuotedCopied(a: Alphabet, quote: char, body: string, mode: Mode, rest: string)
    requires (quote == '\'' && mode == SingleQuote) || (quote == '"' && mode == DoubleQuote)
    requires quote !in body
    ensures Scan(a, [quote] + body + [quote] + rest, Normal) ==
              Before(Copied([quote], Normal) + Copied(body + [quote], mode), Scan(a, rest, Normal))
  {
    var tail, end := [quote] + rest, Scan(a, rest, Normal);
    assert [quote] + body + [quote] + rest == [quote] + (body + tail);
    StepCopies(a, quote, body + tail, Normal);
    BodyCopied(a, body, tail, mode);
    StepCopies(a, quote, rest, mode);
    CopiedSplits(body, [quote], mode);
    BeforeBefore(Copied(body, mode), Copied([quote], mode), end);
    BeforeBefore(Copied([quote], Normal), Copied(body + [quote], mode), end);
  }

  lemma DashesCopied(a: Alphabet, t: Token, rest: string)
    requires t.Dashes? && Fits(a, t, rest)
    ensures Scan(a, Print(t) + rest, Normal) == Before(Meant(t), Scan(a, rest, Normal))
  {
    var end := if t.newline then "\n" else "";
    var body, tail, last := "-" + t.body, end + rest, Scan(a, rest, Normal);
    assert Print(t) + rest == "-" + (body + tail);
    StepCopies(a, '-', body + tail, Normal);
    BodyCopied(a, body, tail, LineComment);
    CopiedSplits(body, end, LineComment);
    if t.newline {
      assert tail == ['\n'] + rest;
      StepCopies(a, '\n', rest, LineComment);
      BeforeBefore(Copied(body, LineComment), Copied(end, LineComment), last);
    } else {
      assert tail == "" && body + end == body && Scan(a, tail, LineComment) == last;
    }
    BeforeBefore(Copied("-", Normal), Copied(body + end, LineComment), last);
  }

  /** A comment up to its closing star, when it does not begin with a slash. */
  lemma BlockRead(a: Alphabet, body: string, rest: string)
    requires (forall k: nat | k < |body| :: !Closes(body, k)) && (body != "" ==> body[0] != '/')
    ensures Scan(a, "/*" + body + "*/" + rest, Normal) ==
              Before(Copied("/", Normal) + Copied("*" + body + "*", BlockComment), Scan(a, "/" + rest, Normal))
  {
    var tail, end := "*/" + rest, Scan(a, "/" + rest, Normal);
    assert "/*" + body + "*/" + rest == ['/'] + ("*" + (body + tail)) && tail == ['*'] + ("/" + rest);
    StepCopies(a, '/', "*" + (body + tail), Normal);
    StepCopies(a, '*', body + tail, BlockComment);
    BlockCopied(a, body, tail);
    StepCopies(a, '*', "/" + rest, BlockComment);
    OneMore('*', body, BlockComment, Before(Copied("*", BlockComment), end));
    assert Copied("*", BlockComment) == [Plain('*', BlockComment)];
    BeforeBefore(Copied("*" + body, BlockComment), Copied("*", BlockComment), end);
    CopiedSplits("*" + body, "*", BlockComment);
    BeforeBefore(Copied("/", Normal), Copied("*" + body + "*", BlockComment), end);
  }

  lemma BlockUnderstood(a: Alphabet, t: Token, rest: string)
    requires SqlAlphabet(a) && t.Block? && Fits(a, t, rest) && Understood(t, rest)
    ensures Scan(a, Print(t) + rest, Normal) == Before(Meant(t), Scan(a, rest, Normal))
  {
    BlockRead(a, t.body, rest);
    assert "/" + rest == ['/'] + rest;
    StepCopies(a, '/', rest, Normal);
    BeforeBefore(Copied("/", Normal) + Copied("*" + t.body + "*", BlockComment), Copied("/", Normal),
                 Scan(a, rest, Normal));
  }

  lemma {:induction false} WordIs(a: Alphabet, w: string, rest: string)
    requires (forall c :: c in w ==> a.part(c)) && (rest != "" ==> !a.part(rest[0]))
    ensures WordLength(a, w + rest) == |w|
  {
    if w == "" {
      assert w + rest == rest;
    } else {
      assert (w + rest)[1..] == w[1..] + rest;
      WordIs(a, w[1..], rest);
    }
  }

  lemma WordTaken(a: Alphabet, name: string, rest: string)
    requires IsWord(a, name, rest)
    ensures Scan(a, ":" + name + rest, Normal) == Before([Param(name)], Scan(a, rest, Normal))
  {
    var s := ":" + name + rest;
    assert s[2..] == name[1..] + rest && s[1] == name[0];
    WordIs(a, name[1..], rest);
    assert s[1..2 + |name[1..]|] == name;
    assert s[1 + |name|..] == rest;
  }

  /** An element the scanner understands is read as it is meant. */
  lemma TokenUnderstood(a: Alphabet, t: Token, rest: string)
    requires SqlAlphabet(a) && Fits(a, t, rest) && Understood(t, rest)
    ensures Scan(a, Print(t) + rest, Normal) == Before(Meant(t), Scan(a, rest, Normal))
  {
    match t
    case Literal(body) => QuotedCopied(a, '\'', body, SingleQuote, rest);
    case Identifier(body) => QuotedCopied(a, '"', body, DoubleQuote, rest);
    case Dashes(_, _) => DashesCopied(a, t, rest);
    case Block(_) => BlockUnderstood(a, t, rest);
    case Parameter(name) => WordTaken(a, name, rest);
    case Other(c) => StepCopies(a, c, rest, Normal);
  }

  // ---------------------------------------------------------------- what the scanner does not understand

  /** The text of what is meant begins with a parameter or outside quotes and comments. */
  lemma MeantStartsOutside(ts: seq<Token>)
    ensures MeantAll(ts) != [] ==> MeantAll(ts)[0].Param? || MeantAll(ts)[0].inside == Normal
    ensures PrintAll(ts) == "" <==> ts == []
  {
    if ts != [] {
      assert Meant(ts[0]) != [] && Print(ts[0]) != "";
      assert MeantAll(ts)[0] == Meant(ts[0])[0];
    }
  }

  lemma CastTaken(a: Alphabet, typeName: string, rest: string)
    requires SqlAlphabet(a) && IsWord(a, typeName, rest)
    ensures Scan(a, "::" + typeName + rest, Normal) ==
              Before([Plain(':', Normal), Param(typeName)], Scan(a, rest, Normal))
  {
    var tail, end := ":" + typeName + rest, Scan(a, rest, Normal);
    assert "::" + typeName + rest == [':'] + tail;
    NoNameBeforeColon(a, tail);
    StepCopies(a, ':', tail, Normal);
    WordTaken(a, typeName, rest);
    assert Copied([':'], Normal) == [Plain(':', Normal)];
    BeforeBefore([Plain(':', Normal)], [Param(typeName)], end);
    assert [Plain(':', Normal)] + [Param(typeName)] == [Plain(':', Normal), Param(typeName)];
  }

  lemma NoNameBeforeColon(a: Alphabet, tail: string)
    requires SqlAlphabet(a) && tail != "" && tail[0] == ':'
    ensures NameAt(a, [':'] + tail).None? && NextMode([':'] + tail, Normal) == Some(Normal)
  {
  }

  /** A comment that begins with a slash is over before its body. */
  lemma SlashedBlockMisread(a: Alphabet, body: string, rest: string) returns (end: Scanned)
    requires body != "" && body[0] == '/'
    ensures Scan(a, "/*" + body + "*/" + rest, Normal) ==
              Before(Copied("/", Normal) + Copied("*", BlockComment) + Copied("/", Normal), end)
  {
    var tail := body[1..] + "*/" + rest;
    assert "/*" + body + "*/" + rest == ['/'] + ("*" + ("/" + tail));
    StepCopies(a, '/', "*" + ("/" + tail), Normal);
    StepCopies(a, '*', "/" + tail, BlockComment);
    StepCopies(a, '/', tail, Normal);
    end := match NextMode("/" + tail, Normal) case None => OutOfBounds case Some(next) => Scan(a, tail, next);
    BeforeBefore(Copied("*", BlockComment), Copied("/", Normal), end);
    BeforeBefore(Copied("/", Normal), Copied("*", BlockComment) + Copied("/", Normal), end);
    assert Copied("/", Normal) + (Copied("*", BlockComment) + Copied("/", Normal)) ==
           Copied("/", Normal) + Copied("*", BlockComment) + Copied("/", Normal);
  }

  /** The closing slash of a comment opens another one before a star, and looks past the end before nothing. */
  lemma ClosingSlashMisread(a: Alphabet, t: Token, rest: string)
    requires SqlAlphabet(a) && t.Block? && Fits(a, t, rest) && (t.body != "" ==> t.body[0] != '/')
    requires rest == "" || rest[0] == '*'
    ensures Scan(a, Print(t) + rest, Normal) ==
              if rest == "" then OutOfBounds else Before(Meant(t), Scan(a, rest, BlockComment))
  {
    BlockRead(a, t.body, rest);
    assert "/" + rest == ['/'] + rest;
    StepCopies(a, '/', rest, Normal);
    if rest != "" {
      BeforeBefore(Copied("/", Normal) + Copied("*" + t.body + "*", BlockComment), Copied("/", Normal),
                   Scan(a, rest, BlockComment));
    }
  }

  /** An element the scanner does not understand spoils the result, whatever follows. */
  lemma TokenMisread(a: Alphabet, t: Token, ts: seq<Token>)
    requires SqlAlphabet(a) && Fits(a, t, PrintAll(ts)) && !Understood(t, PrintAll(ts))
    ensures Scan(a, Print(t) + PrintAll(ts), Normal) != Scanned(Meant(t) + MeantAll(ts))
  {
    var rest, meant := PrintAll(ts), Meant(t) + MeantAll(ts);
    match t
    case Cast(typeName) =>
      CastTaken(a, typeName, rest);
      assert meant[1] == Plain(':', Normal);
    case Block(body) =>
      if body != "" && body[0] == '/' {
        var end := SlashedBlockMisread(a, body, rest);
        assert meant[2] == Plain('/', BlockComment);
      } else {
        ClosingSlashMisread(a, t, rest);
        MeantStartsOutside(ts);
        if rest != "" {
          ReopenedMisread(a, t, ts);
        }
      }
    case Other(c) =>
      assert [c] + rest == [c];
  }

  lemma ReopenedMisread(a: Alphabet, t: Token, ts: seq<Token>)
    requires PrintAll(ts) != "" && PrintAll(ts)[0] == '*'
    ensures Before(Meant(t), Scan(a, PrintAll(ts), BlockComment)) != Scanned(Meant(t) + MeantAll(ts))
  {
    var scanned := Scan(a, PrintAll(ts), BlockComment);
    MeantStartsOutside(ts);
    assert MeantAll(ts) != [] by {
      assert Meant(ts[0]) != [];
    }
    if scanned.Scanned? {
      assert scanned.pieces[0] == Plain('*', BlockComment);
      assert (Meant(t) + scanned.pieces)[|Meant(t)|] != (Meant(t) + MeantAll(ts))[|Meant(t)|];
    }
  }

  // ---------------------------------------------------------------- the whole statement

  lemma PiecesCancel(ps: seq<Piece>, rest: Scanned, qs: seq<Piece>)
    ensures Before(ps, rest) == Scanned(ps + qs) <==> rest == Scanned(qs)
  {
    if rest.Scanned? && ps + rest.pieces == ps + qs {
      assert rest.pieces == (ps + rest.pieces)[|ps|..] == (ps + qs)[|ps|..] == qs;
    }
  }

  /**
   The scanner against the lexical grammar, exactly: of every statement of the grammar, it replaces the parameters,
   copies everything else and reads every character inside or outside quotes and comments as it stands there, if and
   only if it understands every element: no cast stands outside quotes and comments, no comment begins with a slash or
   is followed by a star or by nothing, and no slash or dash ends the text.
   */
  lemma {:induction false} ScannedAsMeantIff(a: Alphabet, ts: seq<Token>)
    requires SqlAlphabet(a) && FitAll(a, ts)
    ensures Scan(a, PrintAll(ts), Normal) == Scanned(MeantAll(ts)) <==> AllUnderstood(ts)
    decreases ts
  {
    if ts != [] {
      var rest := PrintAll(ts[1..]);
      ScannedAsMeantIff(a, ts[1..]);
      if Understood(ts[0], rest) {
        TokenUnderstood(a, ts[0], rest);
        PiecesCancel(Meant(ts[0]), Scan(a, rest, Normal), MeantAll(ts[1..]));
      } else {
        TokenMisread(a, ts[0], ts[1..]);
      }
    }
  }

  lemma {:induction false} NamesAppend(ps: seq<Piece>, qs: seq<Piece>)
    ensures NamesOf(ps + qs) == NamesOf(ps) + NamesOf(qs)
  {
    if ps == [] {
      assert ps + qs == qs;
    } else {
      assert (ps + qs)[1..] == ps[1..] + qs;
      NamesAppend(ps[1..], qs);
    }
  }

  lemma {:induction false} CopiedHasNoNames(s: string, inside: Mode)
    ensures NamesOf(Copied(s, inside)) == []
  {
    if s != "" {
      assert Copied(s, inside)[1..] == Copied(s[1..], inside);
      CopiedHasNoNames(s[1..], inside);
    }
  }

  lemma MeantNames(t: Token)
    ensures NamesOf(Meant(t)) == if t.Parameter? then [t.name] else []
  {
    match t
    case Literal(body) => TwoCopied("'", Normal, body + "'", SingleQuote);
    case Identifier(body) => TwoCopied(['"'], Normal, body + ['"'], DoubleQuote);
    case Dashes(body, newline) => TwoCopied("-", Normal, "-" + body + if newline then "\n" else "", LineComment);
    case Block(body) =>
      TwoCopied("/", Normal, "*" + body + "*", BlockComment);
      NamesAppend(Copied("/", Normal) + Copied("*" + body + "*", BlockComment), Copied("/", Normal));
      CopiedHasNoNames("/", Normal);
    case Cast(typeName) => CopiedHasNoNames("::" + typeName, Normal);
    case Parameter(name) => assert [Param(name)][1..] == [];
    case Other(c) => CopiedHasNoNames([c], Normal);
  }

  lemma TwoCopied(x: string, insideX: Mode, y: string, insideY: Mode)
    ensures NamesOf(Copied(x, insideX) + Copied(y, insideY)) == []
  {
    NamesAppend(Copied(x, insideX), Copied(y, insideY));
    CopiedHasNoNames(x, insideX);
    CopiedHasNoNames(y, insideY);
  }

  /** The names meant to be collected are the parameters of the statement, in order. */
  lemma {:induction false} NamesAreParameters(ts: seq<Token>)
    ensures NamesOf(MeantAll(ts)) == ParametersOf(ts)
  {
    if ts != [] {
      NamesAreParameters(ts[1..]);
      NamesAppend(Meant(ts[0]), MeantAll(ts[1..]));
      MeantNames(ts[0]);
    }
  }

  /** So a statement the scanner understands is prepared with its parameters replaced, and binds them in order. */
  lemma PreparedAsMeant(a: Alphabet, ts: seq<Token>)
    requires SqlAlphabet(a) && FitAll(a, ts) && AllUnderstood(ts)
    ensures var scanned := Scan(a, PrintAll(ts), Normal);
            scanned.Scanned? && TextOf(scanned.pieces) == TextOf(MeantAll(ts)) &&
            NamesOf(scanned.pieces) == ParametersOf(ts)
  {
    ScannedAsMeantIff(a, ts);
    NamesAreParameters(ts);
  }

  // ---------------------------------------------------------------- casts alone

  /** The names the scanner collects when casts are all it does not understand: the types of casts are among them. */
  function NamesTaken(ts: seq<Token>): seq<string> {
    if ts == [] then []
    else NameTaken(ts[0]) + NamesTaken(ts[1..])
  }

  function NameTaken(t: Token): seq<string> {
    match t
    case Parameter(name) => [name]
    case Cast(typeName) => [typeName]
    case _ => []
  }

  predicate UnderstoodButCasts(ts: seq<Token>) {
    ts == [] || ((ts[0].Cast? || Understood(ts[0], PrintAll(ts[1..]))) && UnderstoodButCasts(ts[1..]))
  }

  lemma {:induction false} CastsAreTaken(a: Alphabet, ts: seq<Token>)
    requires SqlAlphabet(a) && FitAll(a, ts) && UnderstoodButCasts(ts)
    ensures Scan(a, PrintAll(ts), Normal).Scanned? && NamesOf(Scan(a, PrintAll(ts), Normal).pieces) == NamesTaken(ts)
    decreases ts
  {
    if ts != [] {
      var t, rest := ts[0], PrintAll(ts[1..]);
      CastsAreTaken(a, ts[1..]);
      var later := Scan(a, rest, Normal);
      if t.Cast? {
        var taken := [Plain(':', Normal), Param(t.typeName)];
        CastTaken(a, t.typeName, rest);
        NamesAppend(taken, later.pieces);
        assert taken[1..] == [Param(t.typeName)] && taken[1..][1..] == [];
      } else {
        TokenUnderstood(a, t, rest);
        NamesAppend(Meant(t), later.pieces);
        MeantNames(t);
      }
    }
  }

  function CastsIn(ts: seq<Token>): nat {
    if ts == [] then 0 else (if ts[0].Cast? then 1 else 0) + CastsIn(ts[1..])
  }

  lemma {:induction false} TakenAndCasts(ts: seq<Token>)
    ensures |NamesTaken(ts)| == |ParametersOf(ts)| + CastsIn(ts)
    ensures CastsIn(ts) == 0 ==> NamesTaken(ts) == ParametersOf(ts)
  {
    if ts != [] {
      TakenAndCasts(ts[1..]);
    }
  }

  /** Casts alone: the scanner collects exactly the parameters if and only if the statement has no cast. */
  lemma NamesTakenIffNoCast(a: Alphabet, ts: seq<Token>)
    requires SqlAlphabet(a) && FitAll(a, ts) && UnderstoodButCasts(ts)
    ensures Scan(a, PrintAll(ts), Normal).Scanned?
    ensures NamesOf(Scan(a, PrintAll(ts), Normal).pieces) == ParametersOf(ts) <==> CastsIn(ts) == 0
  {
    CastsAreTaken(a, ts);
    TakenAndCasts(ts);
  }

  // ---------------------------------------------------------------- concrete statements

  /** One more character in front of a scanned text. */
  lemma InFront(a: Alphabet, c: char, rest: string, mode: Mode, next: Mode, ps: seq<Piece>)
    requires Scan(a, rest, next) == Scanned(ps) && NextMode([c] + rest, mode) == Some(next)
    requires !(mode.Normal? && NameAt(a, [c] + rest).Some?)
    ensures Scan(a, [c] + rest, mode) == Scanned([Plain(c, mode)] + ps)
    ensures NamesOf([Plain(c, mode)] + ps) == NamesOf(ps)
  {
    StepCopies(a, c, rest, mode);
    assert Copied([c], mode) == [Plain(c, mode)] && ([Plain(c, mode)] + ps)[1..] == ps;
  }

  /** One more element in front of a statement. */
  lemma ElementInFront(a: Alphabet, t: Token, ts: seq<Token>)
    ensures PrintAll([t] + ts) == Print(t) + PrintAll(ts)
    ensures FitAll(a, [t] + ts) <==> Fits(a, t, PrintAll(ts)) && FitAll(a, ts)
    ensures AllUnderstood([t] + ts) <==> Understood(t, PrintAll(ts)) && AllUnderstood(ts)
    ensures ParametersOf([t] + ts) == (if t.Parameter? then [t.name] else []) + ParametersOf(ts)
  {
    assert ([t] + ts)[1..] == ts;
  }

  /** `x::text` has no parameter; the scanner takes its type for one, whatever type it is. */
  lemma CastMisread(a: Alphabet, typeName: string)
    requires SqlAlphabet(a) && IsWord(a, typeName, "")
    ensures var ts := [Other('x')] + ([Cast(typeName)] + []);
            FitAll(a, ts) && PrintAll(ts) == "x" + ("::" + typeName) && ParametersOf(ts) == [] &&
            Scan(a, PrintAll(ts), Normal) == Scanned([Plain('x', Normal)] + [Plain(':', Normal), Param(typeName)])
  {
    var rest := "::" + typeName;
    ElementInFront(a, Cast(typeName), []);
    ElementInFront(a, Other('x'), [Cast(typeName)] + []);
    var taken := [Plain(':', Normal), Param(typeName)];
    assert rest + "" == rest;
    CastTaken(a, typeName, "");
    assert taken + [] == taken;
    InFront(a, 'x', rest, Normal, Normal, taken);
  }

  /** A parameter after a star after a comment is lost: the comment is not over for the scanner. */
  lemma ReopenedComment(a: Alphabet)
    requires SqlAlphabet(a) && IsWord(a, "x", "")
    ensures var ts := [Block("c")] + ([Other('*')] + ([Parameter("x")] + []));
            FitAll(a, ts) && PrintAll(ts) == "/*c*/*:x" && ParametersOf(ts) == ["x"] &&
            Scan(a, "/*c*/*:x", Normal) == Before(Meant(Block("c")), Scanned(Copied("*:x", BlockComment)))
  {
    ElementInFront(a, Parameter("x"), []);
    ElementInFront(a, Other('*'), [Parameter("x")] + []);
    ElementInFront(a, Block("c"), [Other('*')] + ([Parameter("x")] + []));
    assert ":" + "x" + "" == ":x" && ['*'] + ":x" == "*:x" && "/*" + "c" + "*/" + "*:x" == "/*c*/*:x";
    assert !Closes("c", 0);
    ClosingSlashMisread(a, Block("c"), "*:x");
    RestReopened(a);
  }

  lemma RestReopened(a: Alphabet)
    ensures Scan(a, "*:x", BlockComment) == Scanned(Copied("*:x", BlockComment))
  {
    assert ['x'] + "" == "x" && [':'] + "x" == ":x" && ['*'] + ":x" == "*:x";
    assert Scan(a, "", BlockComment) == Scanned([]);
    InFront(a, 'x', "", BlockComment, BlockComment, []);
    InFront(a, ':', "x", BlockComment, BlockComment, [Plain('x', BlockComment)] + []);
    var two := [Plain(':', BlockComment)] + ([Plain('x', BlockComment)] + []);
    InFront(a, '*', ":x", BlockComment, BlockComment, two);
    assert Copied("*:x", BlockComment) == [Plain('*', BlockComment)] + two;
  }

  /** A comment that begins with a slash is over for the scanner at once: a name inside it becomes a parameter. */
  lemma NameInsideComment(a: Alphabet)
    requires SqlAlphabet(a) && IsWord(a, "x", "*/ ")
    ensures var ts := [Block("/:x")] + ([Other(' ')] + []);
            FitAll(a, ts) && PrintAll(ts) == "/*/:x*/ " && ParametersOf(ts) == [] &&
            Scan(a, "/*/:x*/ ", Normal).Scanned? && NamesOf(Scan(a, "/*/:x*/ ", Normal).pieces) == ["x"]
  {
    ElementInFront(a, Other(' '), []);
    ElementInFront(a, Block("/:x"), [Other(' ')] + []);
    assert [' '] + "" == " " && "/*" + "/:x" + "*/" + " " == "/*/:x*/ ";
    NamedInside(a);
  }

  lemma RestOfComment(a: Alphabet)
    requires SqlAlphabet(a)
    ensures Scan(a, "*/ ", Normal) == Scanned(Copied("*/ ", Normal))
  {
    assert ['*'] + "/ " == "*/ " && ['/'] + " " == "/ " && [' '] + "" == " ";
    StepCopies(a, '*', "/ ", Normal);
    StepCopies(a, '/', " ", Normal);
    StepCopies(a, ' ', "", Normal);
    assert Scan(a, "", Normal) == Scanned([]);
    assert Copied("*", Normal) + (Copied("/", Normal) + (Copied(" ", Normal) + [])) == Copied("*/ ", Normal);
  }

  /** A slash after an opened comment closes it for the scanner. */
  lemma SlashedComment(a: Alphabet, rest: string, ps: seq<Piece>)
    requires SqlAlphabet(a) && Scan(a, rest, Normal) == Scanned(ps) && rest != "" && rest[0] != '*'
    ensures Scan(a, "/*/" + rest, Normal).Scanned? && NamesOf(Scan(a, "/*/" + rest, Normal).pieces) == NamesOf(ps)
  {
    InFront(a, '/', rest, Normal, Normal, ps);
    var slashed := [Plain('/', Normal)] + ps;
    InFront(a, '*', ['/'] + rest, BlockComment, Normal, slashed);
    InFront(a, '/', ['*'] + (['/'] + rest), Normal, BlockComment, [Plain('*', BlockComment)] + slashed);
    assert ['/'] + (['*'] + (['/'] + rest)) == "/*/" + rest;
  }

  lemma NamedInside(a: Alphabet)
    requires SqlAlphabet(a) && IsWord(a, "x", "*/ ")
    ensures Scan(a, "/*/:x*/ ", Normal).Scanned? && NamesOf(Scan(a, "/*/:x*/ ", Normal).pieces) == ["x"]
  {
    var rest, named := ":" + "x" + "*/ ", [Param("x")] + Copied("*/ ", Normal);
    RestOfComment(a);
    WordTaken(a, "x", "*/ ");
    CopiedHasNoNames("*/ ", Normal);
    assert named[1..] == Copied("*/ ", Normal);
    SlashedComment(a, rest, named);
    assert "/*/" + rest == "/*/:x*/ ";
  }

  /**
   A misread comment may do no harm: this one is over for the scanner, opened again and over again. That is why the
   equivalence speaks of the mode each character is read in.
   */
  lemma MisreadWithoutHarm(a: Alphabet)
    requires SqlAlphabet(a)
    ensures var ts := [Block("/")] + ([Other(' ')] + []); var scanned := Scan(a, "/*/*/ ", Normal);
            FitAll(a, ts) && PrintAll(ts) == "/*/*/ " && !AllUnderstood(ts) && ParametersOf(ts) == [] &&
            scanned.Scanned? && TextOf(scanned.pieces) == "/*/*/ " && NamesOf(scanned.pieces) == []
  {
    ElementInFront(a, Other(' '), []);
    ElementInFront(a, Block("/"), [Other(' ')] + []);
    assert [' '] + "" == " " && "/*" + "/" + "*/" + " " == "/*/*/ " && !Closes("/", 0);
    var ps := SlashesAndStars(a);
    SourceIsText(ps);
    ScanUndoes(a, "/*/*/ ", Normal);
  }

  lemma SlashesAndStars(a: Alphabet) returns (ps: seq<Piece>)
    ensures Scan(a, "/*/*/ ", Normal) == Scanned(ps) && NamesOf(ps) == []
  {
    var spaced := SpacedEnd(a);
    assert ['/'] + "*/ " == "/*/ " && ['*'] + "/*/ " == "*/*/ " && ['/'] + "*/*/ " == "/*/*/ ";
    InFront(a, '/', "*/ ", Normal, BlockComment, spaced);
    ps := [Plain('/', Normal)] + spaced;
    InFront(a, '*', "/*/ ", BlockComment, Normal, ps);
    ps := [Plain('*', BlockComment)] + ps;
    InFront(a, '/', "*/*/ ", Normal, BlockComment, ps);
    ps := [Plain('/', Normal)] + ps;
  }

  lemma SpacedEnd(a: Alphabet) returns (ps: seq<Piece>)
    ensures Scan(a, "*/ ", BlockComment) == Scanned(ps) && NamesOf(ps) == []
  {
    assert [' '] + "" == " " && ['/'] + " " == "/ " && ['*'] + "/ " == "*/ ";
    assert Scan(a, "", Normal) == Scanned([]);
    InFront(a, ' ', "", Normal, Normal, []);
    ps := [Plain(' ', Normal)] + [];
    InFront(a, '/', " ", Normal, Normal, ps);
    ps := [Plain('/', Normal)] + ps;
    InFront(a, '*', "/ ", BlockComment, Normal, ps);
    ps := [Plain('*', BlockComment)] + ps;
  }

  lemma {:induction false} SourceIsText(ps: seq<Piece>)
    requires NamesOf(ps) == []
    ensures SourceOf(ps) == TextOf(ps)
  {
    if ps != [] {
      SourceIsText(ps[1..]);
    }
  }

  predicate UnderstoodButLast(ts: seq<Token>) {
    |ts| <= 1 || ((ts[0].Cast? || Understood(ts[0], PrintAll(ts[1..]))) && UnderstoodButLast(ts[1..]))
  }

  /** The last element is a comment that does not begin with a slash. */
  predicate EndsInComment(ts: seq<Token>) {
    ts != [] &&
    if |ts| == 1 then ts[0].Block? && (ts[0].body != "" ==> ts[0].body[0] != '/') else EndsInComment(ts[1..])
  }

  /** An element that is understood, or a cast, takes nothing from the rest. */
  lemma PassesOn(a: Alphabet, t: Token, rest: string)
    requires SqlAlphabet(a) && Fits(a, t, rest) && (t.Cast? || Understood(t, rest))
    requires Scan(a, rest, Normal) == OutOfBounds
    ensures Scan(a, Print(t) + rest, Normal) == OutOfBounds
  {
    if t.Cast? {
      CastTaken(a, t.typeName, rest);
    } else {
      TokenUnderstood(a, t, rest);
    }
  }

  /** A statement whose last element is a block comment is refused: the closing slash looks past the end. */
  lemma {:induction false} TrailingCommentIsRefused(a: Alphabet, ts: seq<Token>)
    requires SqlAlphabet(a) && FitAll(a, ts) && UnderstoodButLast(ts) && EndsInComment(ts)
    ensures Scan(a, PrintAll(ts), Normal) == OutOfBounds
    decreases ts
  {
    if |ts| == 1 {
      assert ts[1..] == [] && Print(ts[0]) + "" == PrintAll(ts);
      ClosingSlashMisread(a, ts[0], "");
    } else {
      TrailingCommentIsRefused(a, ts[1..]);
      PassesOn(a, ts[0], PrintAll(ts[1..]));
    }
  }
}
