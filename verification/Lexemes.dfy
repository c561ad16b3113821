/** The lexical grammar of generated C++ source: how a text falls into lexemes, and which texts do. */
module Lexemes {
  import opened Prelude

  const TOKEN_BYTES := 65536

  /** A byte of the source, as a character below 256. */
  type Text = string

  predicate IsWord(c: char) {
    'a' <= c <= 'z' || 'A' <= c <= 'Z' || '0' <= c <= '9' || c == '_'
  }

  predicate IsBlank(c: char) {
    c == ' ' || c == '\t'
  }

  predicate EndsKeyword(c: char) {
    c == ' ' || c == '\t' || c == '\r' || c == '(' || c == '<' || c == '"'
  }

  predicate IsPair(text: Text, i: nat, a: char, b: char) {
    i + 1 < |text| && text[i] == a && text[i + 1] == b
  }

  // ----- Ends of the longer lexemes -----

  /** The first line break at or after `i`, or the end of the text. */
  function LineEnd(text: Text, i: nat): (e: nat)
    requires i <= |text|
    ensures i <= e <= |text| && (e < |text| ==> text[e] == '\n')
    ensures forall k :: i <= k < e ==> text[k] != '\n'
    decreases |text| - i
  {
    if i == |text| || text[i] == '\n' then i else LineEnd(text, i + 1)
  }

  /** Behind the first comment terminator at or after `i`. */
  function CommentEnd(text: Text, i: nat): (e: Option<nat>)
    requires i <= |text|
    ensures e.Some? ==>
              i + 2 <= e.value <= |text| && IsPair(text, e.value - 2, '*', '/') &&
              forall k :: i <= k < e.value - 2 ==> !IsPair(text, k, '*', '/')
    ensures e.None? ==> forall k :: i <= k ==> !IsPair(text, k, '*', '/')
    decreases |text| - i
  {
    if i + 1 >= |text| then None
    else if IsPair(text, i, '*', '/') then Some(i + 2)
    else CommentEnd(text, i + 1)
  }

  /** Behind the closing quote of a literal whose content starts at `i`; escapes hide one character. */
  function QuoteEnd(text: Text, i: nat, quote: char): (e: Option<nat>)
    requires i <= |text|
    ensures e.Some? ==> i < e.value <= |text| && text[e.value - 1] == quote
    decreases |text| - i
  {
    if i == |text| then None
    else if text[i] == '\\' then (if i + 1 < |text| then QuoteEnd(text, i + 2, quote) else None)
    else if text[i] == quote then Some(i + 1)
    else if text[i] == '\n' then None
    else QuoteEnd(text, i + 1, quote)
  }

  // ----- Escapes -----

  /** How many backslashes stand directly before `p`, counted back to `i`. */
  ghost function Slashes(text: Text, i: nat, p: nat): nat
    requires i <= p <= |text|
  {
    if p == i || text[p - 1] != '\\' then 0 else 1 + Slashes(text, i, p - 1)
  }

  /** The character at `p` is not escaped: it stands behind an even run of backslashes. */
  ghost predicate Plainly(text: Text, i: nat, p: nat, c: char) {
    i <= p < |text| && text[p] == c && Slashes(text, i, p) % 2 == 0
  }

  lemma {:induction false} SlashesShift(text: Text, i: nat, p: nat)
    requires i < p <= |text|
    ensures text[i] != '\\' ==> Slashes(text, i, p) == Slashes(text, i + 1, p)
    ensures text[i] == '\\' && i + 2 <= p ==> Slashes(text, i, p) % 2 == Slashes(text, i + 2, p) % 2
  {
    if p > i + 1 {
      assert text[i] == '\\' ==> Slashes(text, i, i + 1) == 1 + Slashes(text, i, i);
      SlashesShift(text, i, p - 1);
    }
  }

  /** The first unescaped quote, with no unescaped line break before it. */
  ghost predicate EndsLiteral(text: Text, i: nat, quote: char, q: nat) {
    Plainly(text, i, q, quote) && forall k :: i <= k < q ==> !Plainly(text, i, k, quote) && !Plainly(text, i, k, '\n')
  }

  lemma LiteralGoesOn(text: Text, i: nat, quote: char, q: nat)
    requires i < |text| && quote != '\\' && quote != '\n' && text[i] != quote && text[i] != '\n'
    requires text[i] == '\\' ==> i + 1 < |text|
    ensures EndsLiteral(text, i, quote, q) <==> EndsLiteral(text, if text[i] == '\\' then i + 2 else i + 1, quote, q)
  {
    var n := if text[i] == '\\' then i + 2 else i + 1;
    assert text[i] == '\\' ==> Slashes(text, i, i + 1) == 1 + Slashes(text, i, i);
    forall k: nat, c | c == quote || c == '\n' ensures Plainly(text, i, k, c) <==> Plainly(text, n, k, c) {
      if n <= k <= |text| { SlashesShift(text, i, k); }
    }
  }

  /** A literal ends behind its first unescaped quote, provided no unescaped line break comes before it; without such a
      quote it has no end. */
  lemma {:induction false} QuoteEndsLiteral(text: Text, i: nat, quote: char, q: nat)
    requires i <= |text| && quote != '\\' && quote != '\n'
    ensures QuoteEnd(text, i, quote) == Some(q + 1) <==> EndsLiteral(text, i, quote, q)
    decreases |text| - i
  {
    if i < |text| {
      if text[i] == quote || text[i] == '\n' {
        assert Plainly(text, i, i, text[i]);
      } else if text[i] != '\\' {
        LiteralGoesOn(text, i, quote, q);
        QuoteEndsLiteral(text, i + 1, quote, q);
      } else if i + 1 < |text| {
        LiteralGoesOn(text, i, quote, q);
        QuoteEndsLiteral(text, i + 2, quote, q);
      }
    }
  }

  /** The content of a literal as it is written: a backslash before each quote and each backslash. */
  function Escape(s: Text): Text {
    if s == [] then [] else (if s[0] == '"' || s[0] == '\\' then "\\" else "") + [s[0]] + Escape(s[1..])
  }

  /** A written literal is read to its end, whatever it contains but line breaks, and wherever it stands. */
  lemma {:induction false} QuoteRoundTrips(before: Text, s: Text, rest: Text)
    requires '\n' !in s
    ensures QuoteEnd(before + Escape(s) + "\"" + rest, |before|, '"') == Some(|before| + |Escape(s)| + 1)
    decreases |s|
  {
    var text := before + Escape(s) + "\"" + rest;
    if s != [] {
      var head := (if s[0] == '"' || s[0] == '\\' then "\\" else "") + [s[0]];
      assert Escape(s) == head + Escape(s[1..]);
      assert text == (before + head) + Escape(s[1..]) + "\"" + rest;
      QuoteRoundTrips(before + head, s[1..], rest);
    }
  }

  /** The end of the longest run of word characters. */
  function WordEnd(text: Text, i: nat): (e: nat)
    requires i <= |text|
    ensures i <= e <= |text| && (e < |text| ==> !IsWord(text[e]))
    ensures forall k :: i <= k < e ==> IsWord(text[k])
    decreases |text| - i
  {
    if i == |text| || !IsWord(text[i]) then i else WordEnd(text, i + 1)
  }

  // ----- Preprocessor directives -----

  function SkipBlanks(s: Text): Text {
    if s != [] && IsBlank(s[0]) then SkipBlanks(s[1..]) else s
  }

  function UpToDelimiter(s: Text): Text {
    if s == [] || EndsKeyword(s[0]) then [] else [s[0]] + UpToDelimiter(s[1..])
  }

  datatype Branching = Opens | Closes | Continues | Includes

  function DirectiveOf(directive: Text): Option<Branching>
    requires directive != []
  {
    var keyword := UpToDelimiter(SkipBlanks(directive[1..]));
    if '\\' in directive then None
    else if keyword == "if" || keyword == "ifdef" || keyword == "ifndef" then Some(Opens)
    else if keyword == "endif" then Some(Closes)
    else if keyword == "else" || keyword == "elif" then Some(Continues)
    else if keyword == "include" then Some(Includes)
    else None
  }

  // ----- One lexeme -----

  datatype Kind = Trivia | Directive(branching: Branching) | Plain

  datatype Lexeme = Lexeme(begin: nat, end: nat, kind: Kind)

  predicate IsRawPrefix(word: Text) {
    word == "R" || word == "u8R" || word == "uR" || word == "UR" || word == "LR"
  }

  predicate TakesSuffix(text: Text, e: nat)
    requires e <= |text|
  {
    e < |text| && IsWord(text[e])
  }

  function Bounded(l: Lexeme): Option<Lexeme>
    requires l.begin <= l.end
  {
    if l.end - l.begin <= TOKEN_BYTES then Some(l) else None
  }

  /** The lexeme that starts at `i`, if the grammar has one: white space by the character, comments,
      directives up to the line end, literals, words, and any other character by itself. */
  function LexemeAt(text: Text, i: nat): (l: Option<Lexeme>)
    requires i < |text|
    ensures l.Some? ==> l.value.begin == i && i < l.value.end <= |text|
  {
    var c := text[i];
    if IsSpace(c) then Some(Lexeme(i, i + 1, Trivia))
    else if IsPair(text, i, '/', '/') then Some(Lexeme(i, LineEnd(text, i + 2), Trivia))
    else if IsPair(text, i, '/', '*') then
      var e := CommentEnd(text, i + 2);
      if e.Some? then Some(Lexeme(i, e.value, Trivia)) else None
    else if c == '#' then
      var e := LineEnd(text, i + 1);
      var d := DirectiveOf(text[i..e]);
      if d.Some? then Bounded(Lexeme(i, e, Directive(d.value))) else None
    else if c == '"' || c == '\'' then
      var e := QuoteEnd(text, i + 1, c);
      if e.Some? && !TakesSuffix(text, e.value) then Bounded(Lexeme(i, e.value, Plain)) else None
    else if IsWord(c) then
      var e := WordEnd(text, i + 1);
      if e < |text| && text[e] == '"' && IsRawPrefix(text[i..e]) then None else Bounded(Lexeme(i, e, Plain))
    else Some(Lexeme(i, i + 1, Plain))
  }

  // ----- A text as a row of lexemes -----

  /** The lexemes cover the first `i` characters without gap or overlap. */
  ghost predicate Lexing(text: Text, ls: seq<Lexeme>, i: nat) {
    && i <= |text|
    && (forall k :: 0 <= k < |ls| ==> ls[k].begin < |text| && LexemeAt(text, ls[k].begin) == Some(ls[k]))
    && (forall k :: 0 <= k < |ls| - 1 ==> ls[k].end == ls[k + 1].begin)
    && (if ls == [] then i == 0 else ls[0].begin == 0 && ls[|ls| - 1].end == i)
  }

  /** There is only one way to cut a text into lexemes. */
  lemma {:induction false} LexingUnique(text: Text, a: seq<Lexeme>, i: nat, b: seq<Lexeme>, j: nat, n: nat)
    requires Lexing(text, a, i) && Lexing(text, b, j) && n <= |a| && n <= |b|
    ensures a[..n] == b[..n]
  {
    if n > 0 {
      LexingUnique(text, a, i, b, j, n - 1);
      if n > 1 {
        assert a[n - 2] == a[..n - 1][n - 2] == b[..n - 1][n - 2] == b[n - 2];
        assert a[n - 2].end == a[n - 1].begin && b[n - 2].end == b[n - 1].begin;
      }
      assert a[n - 1] == b[n - 1];
      assert a[..n] == a[..n - 1] + [a[n - 1]] && b[..n] == b[..n - 1] + [b[n - 1]];
    }
  }

  lemma {:induction false} LexingOrdered(text: Text, ls: seq<Lexeme>, i: nat, p: nat, q: nat)
    requires Lexing(text, ls, i) && p < q < |ls|
    ensures ls[p].end <= ls[q].begin && ls[q].end <= i
    decreases q
  {
    assert ls[q - 1].end == ls[q - 1 + 1].begin;
    if p < q - 1 { LexingOrdered(text, ls, i, p, q - 1); }
    LexingEnds(text, ls, i, q);
  }

  lemma {:induction false} LexingEnds(text: Text, ls: seq<Lexeme>, i: nat, q: nat)
    requires Lexing(text, ls, i) && q < |ls|
    ensures ls[q].end <= i
    decreases |ls| - q
  {
    if q < |ls| - 1 {
      LexingEnds(text, ls, i, q + 1);
      assert ls[q].end == ls[q + 1].begin;
    }
  }

  lemma Starts(text: Text, ls: seq<Lexeme>, i: nat, k: nat)
    requires Lexing(text, ls, i) && k < |ls|
    ensures ls[k].begin == (if k == 0 then 0 else ls[k - 1].end) && ls[k].begin < |text|
  {
    if k > 0 { assert ls[k - 1].end == ls[k - 1 + 1].begin; }
  }

  /** Nothing comes after the end of the text. */
  lemma CutShort(text: Text, a: seq<Lexeme>, i: nat, b: seq<Lexeme>)
    requires Lexing(text, a, i) && Lexing(text, b, |text|) && b <= a
    ensures a == b
  {
    if |b| < |a| {
      Starts(text, a, i, |b|);
      assert false;
    }
  }

  /** A partial cutting is the start of every complete one. */
  lemma LexingPrefix(text: Text, a: seq<Lexeme>, i: nat, b: seq<Lexeme>)
    requires Lexing(text, a, i) && Lexing(text, b, |text|)
    ensures a <= b && (i < |text| ==> |a| < |b| && LexemeAt(text, i) == Some(b[|a|]))
  {
    var n := if |a| <= |b| then |a| else |b|;
    LexingUnique(text, a, i, b, |text|, n);
    if |b| <= |a| {
      assert b[..n] == b;
      CutShort(text, a, i, b);
    }
    assert a[..|a|] == a;
    if i < |text| && a != [] {
      assert a[|a| - 1] == b[..n][|a| - 1] == b[|a| - 1];
      if |a| < |b| { assert b[|a| - 1].end == b[|a| - 1 + 1].begin; }
    }
  }

  // ----- Tokens and lines -----

  /** The lexemes that become tokens. */
  function Solid(ls: seq<Lexeme>): seq<Lexeme> {
    if ls == [] then []
    else Solid(ls[..|ls| - 1]) + if ls[|ls| - 1].kind.Trivia? then [] else [ls[|ls| - 1]]
  }

  lemma {:induction false} SolidPrefix(a: seq<Lexeme>, b: seq<Lexeme>)
    requires a <= b
    ensures Solid(a) <= Solid(b)
    decreases |b|
  {
    if a != b {
      assert a <= b[..|b| - 1];
      SolidPrefix(a, b[..|b| - 1]);
    }
  }

  lemma SolidSnoc(ls: seq<Lexeme>, l: Lexeme)
    ensures Solid(ls + [l]) == if l.kind.Trivia? then Solid(ls) else Solid(ls) + [l]
  {
    assert (ls + [l])[..|ls|] == ls;
  }

  lemma {:induction false} SolidIn(ls: seq<Lexeme>)
    ensures forall l :: l in Solid(ls) <==> l in ls && !l.kind.Trivia?
  {
    if ls != [] {
      SolidIn(ls[..|ls| - 1]);
      assert ls == ls[..|ls| - 1] + [ls[|ls| - 1]];
    }
  }

  /** Number of line breaks before a position. */
  function Newlines(text: Text, i: nat): nat
    requires i <= |text|
  {
    if i == 0 then 0 else Newlines(text, i - 1) + if text[i - 1] == '\n' then 1 else 0
  }

  /** A lexeme as it weighs in the bracket structure: its character, or '#' for a directive. */
  function Glyph(text: Text, l: Lexeme): char {
    if l.kind.Plain? && l.begin < |text| then text[l.begin] else '#'
  }
}
