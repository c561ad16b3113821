/** Writing source text and reading it back: what a generator prints token by token is what the lexical grammar finds. */
module SourcePrinter {
  import opened Prelude
  import opened Lexemes

  /** Letters, digits and the underscore, one by one. */
  lemma WordCharacters(c: char)
    ensures IsWord(c) <==>
            c in {'a', 'b', 'c', 'd', 'e', 'f', 'g', 'h', 'i', 'j', 'k', 'l', 'm', 'n', 'o', 'p', 'q', 'r', 's', 't', 'u', 'v', 'w', 'x', 'y', 'z'} ||
            c in {'A', 'B', 'C', 'D', 'E', 'F', 'G', 'H', 'I', 'J', 'K', 'L', 'M', 'N', 'O', 'P', 'Q', 'R', 'S', 'T', 'U', 'V', 'W', 'X', 'Y', 'Z'} ||
            c in {'0', '1', '2', '3', '4', '5', '6', '7', '8', '9', '_'}
  {
  }

  lemma SpaceCharacters(c: char)
    ensures IsSpace(c) <==> c in {' ', '\t', '\n', '\r'} || c as int in {11, 12}
  {
  }

  // ----- Tokens, comments and directives as they are written -----

  datatype Atom =
    | Word(text: Text)
    | Literal(content: Text)
    | Mark(sign: char)
    | LineComment(text: Text)
    | BlockComment(text: Text)
    | Directive(blanks: Text, keyword: Text, tail: Text)

  function Branch(keyword: Text): Option<Branching> {
    match keyword
    case "if" => Some(Opens)
    case "ifdef" => Some(Opens)
    case "ifndef" => Some(Opens)
    case "endif" => Some(Closes)
    case "else" => Some(Continues)
    case "elif" => Some(Continues)
    case "include" => Some(Includes)
    case _ => None
  }

  function Write(a: Atom): Text {
    match a
    case Word(t) => t
    case Literal(s) => "\"" + Escape(s) + "\""
    case Mark(c) => [c]
    case LineComment(t) => "//" + t
    case BlockComment(t) => "/*" + t + "*/"
    case Directive(blanks, keyword, tail) => "#" + blanks + keyword + tail
  }

  /** What can be written: words of word characters, literals and comments of one line, no comment end inside a comment,
      and a known directive whose keyword is set off from the rest. */
  predicate Writable(a: Atom) {
    match a
    case Word(t) => t != [] && |t| <= TOKEN_BYTES && forall i :: 0 <= i < |t| ==> IsWord(t[i])
    case Literal(s) => '\n' !in s && |Escape(s)| + 2 <= TOKEN_BYTES
    case Mark(c) => !IsSpace(c) && !IsWord(c) && c != '#' && c != '"' && c != '\''
    case LineComment(t) => '\n' !in t
    case BlockComment(t) => forall i :: 0 <= i < |t| ==> !IsPair(t + "*/", i, '*', '/')
    case Directive(blanks, keyword, tail) =>
      && Branch(keyword).Some? && (forall i :: 0 <= i < |blanks| ==> IsBlank(blanks[i]))
      && (tail != [] ==> EndsKeyword(tail[0])) && '\n' !in tail && '\\' !in tail && |Write(a)| <= TOKEN_BYTES
  }

  function KindOf(a: Atom): Kind
    requires Writable(a)
  {
    match a
    case LineComment(_) => Trivia
    case BlockComment(_) => Trivia
    case Directive(_, keyword, _) => Kind.Directive(Branch(keyword).value)
    case _ => Plain
  }

  lemma {:induction false} WordEndIs(text: Text, i: nat, e: nat)
    requires i <= e < |text| && !IsWord(text[e]) && forall k :: i <= k < e ==> IsWord(text[k])
    ensures WordEnd(text, i) == e
  {
    var w := WordEnd(text, i);
  }

  lemma LineEndIs(text: Text, i: nat, e: nat)
    requires i <= e < |text| && text[e] == '\n' && forall k :: i <= k < e ==> text[k] != '\n'
    ensures LineEnd(text, i) == e
  {
    var l := LineEnd(text, i);
  }

  lemma CommentEndIs(text: Text, i: nat, e: nat)
    requires i <= e && IsPair(text, e, '*', '/') && forall k :: i <= k < e ==> !IsPair(text, k, '*', '/')
    ensures CommentEnd(text, i) == Some(e + 2)
  {
    var c := CommentEnd(text, i);
  }

  lemma {:induction false} KeywordIs(blanks: Text, keyword: Text, tail: Text)
    requires forall i :: 0 <= i < |blanks| ==> IsBlank(blanks[i])
    requires keyword != [] && forall i :: 0 <= i < |keyword| ==> !EndsKeyword(keyword[i])
    requires tail != [] ==> EndsKeyword(tail[0])
    ensures UpToDelimiter(SkipBlanks(blanks + keyword + tail)) == keyword
  {
    BlanksSkipped(blanks, keyword + tail);
    assert blanks + keyword + tail == blanks + (keyword + tail);
    KeywordCut(keyword, tail);
  }

  lemma {:induction false} BlanksSkipped(blanks: Text, rest: Text)
    requires forall i :: 0 <= i < |blanks| ==> IsBlank(blanks[i])
    requires rest != [] && !IsBlank(rest[0])
    ensures SkipBlanks(blanks + rest) == rest
  {
    if blanks == [] {
      assert blanks + rest == rest;
    } else {
      assert (blanks + rest)[1..] == blanks[1..] + rest;
      BlanksSkipped(blanks[1..], rest);
    }
  }

  lemma {:induction false} KeywordCut(keyword: Text, tail: Text)
    requires forall i :: 0 <= i < |keyword| ==> !EndsKeyword(keyword[i])
    requires tail != [] ==> EndsKeyword(tail[0])
    ensures UpToDelimiter(keyword + tail) == keyword
  {
    if keyword == [] {
      assert keyword + tail == tail;
    } else {
      assert (keyword + tail)[1..] == keyword[1..] + tail;
      KeywordCut(keyword[1..], tail);
    }
  }

  lemma KeywordsAreWords(keyword: Text)
    requires Branch(keyword).Some?
    ensures keyword != [] && '\\' !in keyword && '\n' !in keyword && forall i :: 0 <= i < |keyword| ==> !EndsKeyword(keyword[i])
  {
  }

  lemma NoBackslash(blanks: Text)
    requires forall i :: 0 <= i < |blanks| ==> IsBlank(blanks[i])
    ensures '\\' !in blanks
  {
  }

  lemma DirectiveIsRead(blanks: Text, keyword: Text, tail: Text)
    requires Writable(Atom.Directive(blanks, keyword, tail))
    ensures DirectiveOf("#" + blanks + keyword + tail) == Branch(keyword)
  {
    hide Write, SkipBlanks, UpToDelimiter, EndsKeyword, IsBlank;
    KeywordsAreWords(keyword);
    KeywordIs(blanks, keyword, tail);
    var d := "#" + blanks + keyword + tail;
    NoBackslash(blanks);
    assert d[1..] == blanks + keyword + tail;
    assert '\\' !in d;
  }

  /** The written atom at its place. */
  ghost predicate Stands(text: Text, i: nat, a: Atom) {
    var e := i + |Write(a)|;
    e < |text| && text[i..e] == Write(a) && text[e] == '\n' && forall k :: i <= k < e ==> text[k] == Write(a)[k - i]
  }

  lemma WordIsLexed(text: Text, i: nat, a: Atom)
    requires a.Word? && Writable(a) && Stands(text, i, a)
    ensures LexemeAt(text, i) == Some(Lexeme(i, i + |Write(a)|, Plain))
  {
    WordEndIs(text, i + 1, i + |Write(a)|);
  }

  lemma Sliced(text: Text, i: nat, e: nat, q: Text, c: Text)
    requires i <= e <= |text| && text[i..e] == q + c + q
    ensures text == text[..i] + q + c + q + text[e..]
  {
    assert text == text[..i] + text[i..e] + text[e..];
  }

  lemma QuoteAt(text: Text, i: nat, e: nat, s: Text)
    requires i <= e <= |text| && '\n' !in s && text[i..e] == "\"" + Escape(s) + "\""
    ensures i + 1 <= |text| && QuoteEnd(text, i + 1, '"') == Some(e)
  {
    hide *;
    Sliced(text, i, e, "\"", Escape(s));
    QuoteRoundTrips(text[..i] + "\"", s, text[e..]);
    assert |text[i..e]| == |Escape(s)| + 2;
  }

  lemma LiteralEnds(text: Text, i: nat, a: Atom)
    requires a.Literal? && '\n' !in a.content && Stands(text, i, a)
    ensures i < |text| && text[i] == '"' && QuoteEnd(text, i + 1, '"') == Some(i + |Write(a)|)
  {
    hide Escape, QuoteEnd;
    QuoteAt(text, i, i + |Write(a)|, a.content);
    assert text[i] == Write(a)[0];
  }

  lemma LiteralIsLexed(text: Text, i: nat, a: Atom)
    requires a.Literal? && Writable(a) && Stands(text, i, a)
    ensures LexemeAt(text, i) == Some(Lexeme(i, i + |Write(a)|, Plain))
  {
    hide QuoteEnd, Escape;
    LiteralEnds(text, i, a);
  }

  lemma LineCommentIsLexed(text: Text, i: nat, a: Atom)
    requires a.LineComment? && Writable(a) && Stands(text, i, a)
    ensures LexemeAt(text, i) == Some(Lexeme(i, i + |Write(a)|, Trivia))
  {
    assert forall k :: i + 2 <= k < i + |Write(a)| ==> text[k] == a.text[k - i - 2];
    LineEndIs(text, i + 2, i + |Write(a)|);
  }

  lemma BlockCommentIsLexed(text: Text, i: nat, a: Atom)
    requires a.BlockComment? && Writable(a) && Stands(text, i, a)
    ensures LexemeAt(text, i) == Some(Lexeme(i, i + |Write(a)|, Trivia))
  {
    var inner, e := a.text + "*/", i + |Write(a)|;
    assert forall k :: i + 2 <= k < e ==> text[k] == inner[k - i - 2];
    forall k | i + 2 <= k < e - 2 ensures !IsPair(text, k, '*', '/') { assert !IsPair(inner, k - i - 2, '*', '/'); }
    CommentEndIs(text, i + 2, e - 2);
  }

  lemma DirectiveIsLexed(text: Text, i: nat, a: Atom)
    requires a.Directive? && Writable(a) && Stands(text, i, a)
    ensures LexemeAt(text, i) == Some(Lexeme(i, i + |Write(a)|, Kind.Directive(Branch(a.keyword).value)))
  {
    hide DirectiveOf, Branch;
    KeywordsAreWords(a.keyword);
    NoBreak(a);
    LineEndIs(text, i + 1, i + |Write(a)|);
    DirectiveIsRead(a.blanks, a.keyword, a.tail);
  }

  lemma NoBreak(a: Atom)
    requires a.Directive? && Writable(a)
    ensures Write(a)[0] == '#' && '\n' !in Write(a)
  {
    KeywordsAreWords(a.keyword);
  }

  /** Wherever it stands, what is written is read as what it is, up to its end. */
  lemma AtomIsLexed(text: Text, i: nat, a: Atom)
    requires Writable(a) && Stands(text, i, a)
    ensures LexemeAt(text, i) == Some(Lexeme(i, i + |Write(a)|, KindOf(a)))
  {
    hide LexemeAt;
    match a
    case Word(_) => WordIsLexed(text, i, a);
    case Literal(_) => LiteralIsLexed(text, i, a);
    case Mark(_) => MarkIsLexed(text, i, a);
    case LineComment(_) => LineCommentIsLexed(text, i, a);
    case BlockComment(_) => BlockCommentIsLexed(text, i, a);
    case Directive(_, _, _) => DirectiveIsLexed(text, i, a);
  }

  lemma MarkIsLexed(text: Text, i: nat, a: Atom)
    requires a.Mark? && Writable(a) && Stands(text, i, a)
    ensures LexemeAt(text, i) == Some(Lexeme(i, i + |Write(a)|, Plain))
  {
  }

  // ----- Whole texts -----

  /** One atom to a line. */
  function WriteAll(a: seq<Atom>, n: nat): Text
    requires n <= |a|
  {
    if n == 0 then "" else WriteAll(a, n - 1) + Write(a[n - 1]) + "\n"
  }

  lemma {:induction false} WrittenPrefix(a: seq<Atom>, m: nat, n: nat)
    requires m <= n <= |a|
    ensures WriteAll(a, m) <= WriteAll(a, n)
  {
    hide Write;
    if m < n { WrittenPrefix(a, m, n - 1); }
  }

  /** The atoms that are tokens, of the first `n`. */
  function Tokens(a: seq<Atom>, n: nat): seq<Atom>
    requires n <= |a|
  {
    if n == 0 then [] else Tokens(a, n - 1) + if a[n - 1].LineComment? || a[n - 1].BlockComment? then [] else [a[n - 1]]
  }

  /** The lexemes are these atoms, one by one. */
  ghost predicate AreAtoms(text: Text, ls: seq<Lexeme>, a: seq<Atom>) {
    |ls| == |a| && forall k :: 0 <= k < |ls| ==> IsAtom(text, ls[k], a[k])
  }

  ghost predicate IsAtom(text: Text, l: Lexeme, a: Atom) {
    l.begin <= l.end <= |text| && text[l.begin..l.end] == Write(a) && Writable(a) && l.kind == KindOf(a)
  }

  lemma LineAt(text: Text, before: Text, line: Text)
    requires before + line + "\n" <= text
    ensures var i, e := |before|, |before| + |line|;
            && e < |text| && text[i..e] == line && text[e] == '\n'
            && forall k :: i <= k < e ==> text[k] == line[k - i]
  {
    var w := before + line + "\n";
    assert forall k :: 0 <= k < |w| ==> text[k] == w[k];
  }

  lemma OneMoreLine(a: seq<Atom>, n: nat)
    requires n < |a|
    ensures WriteAll(a, n + 1) == WriteAll(a, n) + Write(a[n]) + "\n"
  {
  }

  lemma LineStands(a: seq<Atom>, n: nat)
    requires n < |a|
    ensures var text, i := WriteAll(a, |a|), |WriteAll(a, n)|;
            && Stands(text, i, a[n]) && |WriteAll(a, n + 1)| == i + |Write(a[n])| + 1
  {
    hide Write, WriteAll;
    WrittenPrefix(a, n + 1, |a|);
    OneMoreLine(a, n);
    LineAt(WriteAll(a, |a|), WriteAll(a, n), Write(a[n]));
  }

  /** Printing and reading: a text written line by line falls into lexemes, and its tokens are exactly the words,
      literals, marks and directives that were written, in order. */
  lemma WrittenIsRead(a: seq<Atom>) returns (ls: seq<Lexeme>)
    requires forall k :: 0 <= k < |a| ==> Writable(a[k])
    ensures Lexing(WriteAll(a, |a|), ls, |WriteAll(a, |a|)|)
    ensures AreAtoms(WriteAll(a, |a|), Solid(ls), Tokens(a, |a|))
  {
    hide Write, Writable, LexemeAt, Lexing, Stands;
    var text := WriteAll(a, |a|);
    ls := [];
    NoLexemes(text);
    for n := 0 to |a|
      invariant |WriteAll(a, n)| <= |text| && Lexing(text, ls, |WriteAll(a, n)|)
      invariant AreAtoms(text, Solid(ls), Tokens(a, n))
    {
      ls := ReadLine(a, n, ls);
    }
  }

  lemma NoLexemes(text: Text)
    ensures Lexing(text, [], 0) && Solid([]) == []
  {
  }

  lemma ReadLine(a: seq<Atom>, n: nat, ls: seq<Lexeme>) returns (r: seq<Lexeme>)
    requires n < |a| && Writable(a[n])
    requires var text := WriteAll(a, |a|);
             |WriteAll(a, n)| <= |text| && Lexing(text, ls, |WriteAll(a, n)|) && AreAtoms(text, Solid(ls), Tokens(a, n))
    ensures var text := WriteAll(a, |a|);
            |WriteAll(a, n + 1)| <= |text| && Lexing(text, r, |WriteAll(a, n + 1)|) && AreAtoms(text, Solid(r), Tokens(a, n + 1))
  {
    hide *;
    var text, i := WriteAll(a, |a|), |WriteAll(a, n)|;
    LineStands(a, n);
    StandsInside(text, i, a[n]);
    AtomIsLexed(text, i, a[n]);
    var e := i + |Write(a[n])|;
    var first, second := Lexeme(i, e, KindOf(a[n])), Lexeme(e, e + 1, Trivia);
    BreakIsTrivia(text, e);
    LexesMore(text, ls, i, first);
    LexesMore(text, ls + [first], e, second);
    SolidSnoc(ls, first);
    SolidSnoc(ls + [first], second);
    r := ls + [first] + [second];
    AtomsMore(text, ls, a, n, first);
  }

  lemma StandsInside(text: Text, i: nat, a: Atom)
    requires Stands(text, i, a)
    ensures i + |Write(a)| < |text| && text[i + |Write(a)|] == '\n' && text[i..i + |Write(a)|] == Write(a)
  {
  }

  lemma BreakIsTrivia(text: Text, e: nat)
    requires e < |text| && text[e] == '\n'
    ensures LexemeAt(text, e) == Some(Lexeme(e, e + 1, Trivia))
  {
  }

  lemma AtomsMore(text: Text, ls: seq<Lexeme>, a: seq<Atom>, n: nat, l: Lexeme)
    requires n < |a| && Writable(a[n]) && AreAtoms(text, Solid(ls), Tokens(a, n))
    requires l.begin <= l.end <= |text| && text[l.begin..l.end] == Write(a[n]) && l.kind == KindOf(a[n])
    ensures AreAtoms(text, if l.kind.Trivia? then Solid(ls) else Solid(ls) + [l], Tokens(a, n + 1))
  {
    hide Write, Writable, Solid;
    assert IsAtom(text, l, a[n]);
    assert l.kind.Trivia? <==> a[n].LineComment? || a[n].BlockComment?;
  }

  lemma LexesMore(text: Text, ls: seq<Lexeme>, i: nat, l: Lexeme)
    requires Lexing(text, ls, i) && i < |text| && LexemeAt(text, i) == Some(l)
    ensures Lexing(text, ls + [l], l.end)
  {
    hide LexemeAt;
  }
}
