/** The source document: one pass over the text that cuts it into tokens, counts lines, follows preprocessor
    conditions and matches brackets in place. */
module Documents {
  import opened Prelude
  import opened Lexemes
  import opened Brackets

  const TEXT_BYTES := 4 * 1024 * 1024
  const CONDITIONS := 64

  // ----- What is accepted -----

  /** The openings waiting after the first `n` tokens; none if a closing did not fit or the nesting was too deep. */
  function StackAt(text: Text, ls: seq<Lexeme>, n: nat): Option<seq<nat>>
    requires n <= |ls|
  {
    if n == 0 then Some([])
    else
      var s := StackAt(text, ls, n - 1);
      var c := Glyph(text, ls[n - 1]);
      if s.None? then None
      else if IsOpening(c) then (if |s.value| < NESTING then Some(s.value + [n - 1]) else None)
      else if IsClosing(c) then
        if s.value != [] && s.value[|s.value| - 1] < n && SameKind(Glyph(text, ls[s.value[|s.value| - 1]]), c)
        then Some(s.value[..|s.value| - 1]) else None
      else s
  }

  /** Open preprocessor conditions after the first `n` tokens. */
  function ConditionsAt(ls: seq<Lexeme>, n: nat): Option<nat>
    requires n <= |ls|
  {
    if n == 0 then Some(0)
    else
      var d := ConditionsAt(ls, n - 1);
      if d.None? || !ls[n - 1].kind.Directive? then d
      else match ls[n - 1].kind.branching
        case Opens => if d.value < CONDITIONS then Some(d.value + 1) else None
        case Closes => if d.value > 0 then Some(d.value - 1) else None
        case Continues => if d.value > 0 then d else None
        case Includes => d
  }

  ghost predicate Fine(text: Text, ls: seq<Lexeme>) {
    |ls| <= TOKENS && StackAt(text, ls, |ls|).Some? && ConditionsAt(ls, |ls|).Some?
  }

  predicate PlainText(text: Text) {
    |text| <= TEXT_BYTES && (forall i :: 0 <= i < |text| ==> text[i] != '\0') && !Spliced(text)
  }

  predicate Spliced(text: Text) {
    exists i :: 0 <= i < |text| && (IsPair(text, i, '\\', '\n') || (IsPair(text, i, '\\', '\r') && IsPair(text, i + 1, '\r', '\n')))
  }

  ghost predicate Contains(text: Text, part: Text) {
    exists before, after :: text == before + part + after
  }

  lemma ContainsAt(text: Text, i: nat, part: Text)
    requires i + |part| <= |text| && text[i..i + |part|] == part
    ensures Contains(text, part)
  {
    assert text == text[..i] + part + text[i + |part|..];
  }

  /** A line is spliced where a backslash stands at its end, before either form of line break. */
  lemma SplicedIff(text: Text)
    ensures Spliced(text) <==> Contains(text, "\\\n") || Contains(text, "\\\r\n")
  {
    if i :| 0 <= i < |text| && IsPair(text, i, '\\', '\n') { ContainsAt(text, i, "\\\n"); }
    if i :| 0 <= i < |text| && IsPair(text, i, '\\', '\r') && IsPair(text, i + 1, '\r', '\n') {
      ContainsAt(text, i, "\\\r\n");
    }
    if before, after :| text == before + "\\\n" + after { assert IsPair(text, |before|, '\\', '\n'); }
    if before, after :| text == before + "\\\r\n" + after {
      assert IsPair(text, |before|, '\\', '\r') && IsPair(text, |before| + 1, '\r', '\n');
    }
  }

  /** The whole text falls into lexemes, and its tokens are balanced within the limits. */
  ghost predicate Accepts(text: Text) {
    PlainText(text) && exists ls :: Complete(text, ls)
  }

  ghost predicate Complete(text: Text, ls: seq<Lexeme>) {
    && Lexing(text, ls, |text|) && Fine(text, Solid(ls))
    && StackAt(text, Solid(ls), |Solid(ls)|) == Some([]) && ConditionsAt(Solid(ls), |Solid(ls)|) == Some(0)
  }

  lemma {:induction false} StatePrefix(text: Text, a: seq<Lexeme>, b: seq<Lexeme>, n: nat)
    requires a <= b && n <= |a|
    ensures StackAt(text, a, n) == StackAt(text, b, n) && ConditionsAt(a, n) == ConditionsAt(b, n)
  {
    if n > 0 { StatePrefix(text, a, b, n - 1); }
  }

  lemma {:induction false} StateFails(text: Text, ls: seq<Lexeme>, m: nat, n: nat)
    requires m <= n <= |ls|
    ensures StackAt(text, ls, m).None? ==> StackAt(text, ls, n).None?
    ensures ConditionsAt(ls, m).None? ==> ConditionsAt(ls, n).None?
  {
    if m < n { StateFails(text, ls, m, n - 1); }
  }

  lemma FinePrefix(text: Text, a: seq<Lexeme>, b: seq<Lexeme>)
    requires a <= b && Fine(text, b)
    ensures Fine(text, a)
  {
    StatePrefix(text, a, b, |a|);
    StateFails(text, b, |a|, |b|);
  }

  /** Where a pass gets stuck, no complete cutting exists. */
  lemma Stuck(text: Text, ls: seq<Lexeme>, i: nat)
    requires Lexing(text, ls, i) && i < |text|
    requires LexemeAt(text, i).None? || !Fine(text, Solid(ls + [LexemeAt(text, i).value]))
    ensures !Accepts(text)
  {
    if all :| Complete(text, all) {
      LexingPrefix(text, ls, i, all);
      SolidPrefix(ls + [all[|ls|]], all);
      FinePrefix(text, Solid(ls + [all[|ls|]]), Solid(all));
      assert false;
    }
  }

  /** At the end of the text there is only one candidate. */
  lemma OnlyOne(text: Text, ls: seq<Lexeme>)
    requires Lexing(text, ls, |text|) && PlainText(text)
    ensures Accepts(text) <==> Complete(text, ls)
  {
    if all :| Complete(text, all) {
      LexingPrefix(text, ls, |text|, all);
      LexingPrefix(text, all, |text|, ls);
      assert all == ls;
    }
  }

  lemma LexingNone(text: Text)
    ensures Lexing(text, [], 0) && Solid([]) == []
  {
  }

  lemma LexingSnoc(text: Text, ls: seq<Lexeme>, i: nat)
    requires Lexing(text, ls, i) && i < |text| && LexemeAt(text, i).Some?
    ensures Lexing(text, ls + [LexemeAt(text, i).value], LexemeAt(text, i).value.end)
  {
  }

  lemma StateSnoc(text: Text, ls: seq<Lexeme>, l: Lexeme)
    ensures StackAt(text, ls + [l], |ls|) == StackAt(text, ls, |ls|)
    ensures ConditionsAt(ls + [l], |ls|) == ConditionsAt(ls, |ls|)
  {
    StatePrefix(text, ls, ls + [l], |ls|);
  }

  // ----- What the tokens mean -----

  /** The token is this lexeme of the text. */
  ghost predicate TokenOk(text: Text, ls: seq<Lexeme>, k: nat, t: Token)
    requires k < |ls|
  {
    && t.begin == ls[k].begin && t.end == ls[k].end && t.begin <= |text| && t.line == 1 + Newlines(text, t.begin)
    && ConditionsAt(ls, k).Some? && (t.conditional <==> ls[k].kind.Directive? || ConditionsAt(ls, k) != Some(0))
  }

  function Glyphs(text: Text, ls: seq<Lexeme>): (g: seq<char>)
    ensures |g| == |ls| && forall k {:trigger g[k]} :: 0 <= k < |g| ==> g[k] == Glyph(text, ls[k])
  {
    seq(|ls|, k requires 0 <= k < |ls| => Glyph(text, ls[k]))
  }

  lemma GlyphsSnoc(text: Text, ls: seq<Lexeme>, l: Lexeme)
    ensures Glyphs(text, ls + [l]) == Glyphs(text, ls) + [Glyph(text, l)]
  {
  }

  ghost predicate TokensOk(text: Text, ls: seq<Lexeme>, ts: seq<Token>) {
    |ts| == |ls| && forall k :: 0 <= k < |ts| ==> TokenOk(text, ls, k, ts[k])
  }

  lemma TokensSnoc(text: Text, ls: seq<Lexeme>, ts: seq<Token>, ts': seq<Token>, l: Lexeme)
    requires TokensOk(text, ls, ts) && |ts'| == |ts| + 1
    requires TokenOk(text, ls + [l], |ls|, ts'[|ls|])
    requires forall k :: 0 <= k < |ts| ==> ts'[k].(pair := ts[k].pair) == ts[k]
    ensures TokensOk(text, ls + [l], ts')
  {
    forall k | 0 <= k < |ts'| ensures TokenOk(text, ls + [l], k, ts'[k]) {
      if k < |ts| {
        assert TokenOk(text, ls, k, ts[k]);
        StatePrefix(text, ls, ls + [l], k);
      }
    }
  }

  /** Everything the pass keeps about the tokens. */
  datatype State = State(tokens: seq<Token>, stack: seq<nat>, brace: Option<nat>, conditional: nat)

  ghost predicate StateOk(text: Text, ls: seq<Lexeme>, y: State) {
    && Fine(text, ls) && |y.tokens| == |ls| && TokensOk(text, ls, y.tokens)
    && Scanned(Glyphs(text, ls), y.tokens, y.stack, y.brace)
    && StackAt(text, ls, |ls|) == Some(y.stack) && ConditionsAt(ls, |ls|) == Some(y.conditional)
  }

  function NewToken(y: State, l: Lexeme, line: nat): Token {
    Token(l.begin, l.end, line, None, y.brace, l.kind.Directive? || y.conditional != 0)
  }

  /** A lexeme that could be the next token, with the line it starts on. */
  ghost predicate Next(text: Text, l: Lexeme, line: nat) {
    l.begin <= l.end <= |text| && l.begin < |text| && line == 1 + Newlines(text, l.begin)
  }

  lemma NewTokenOk(text: Text, ls: seq<Lexeme>, y: State, l: Lexeme, line: nat)
    requires StateOk(text, ls, y) && Next(text, l, line)
    ensures TokenOk(text, ls + [l], |ls|, NewToken(y, l, line))
  {
    hide Scanned, TokensOk, Fine;
    StateSnoc(text, ls, l);
  }

  lemma OtherStack(text: Text, ls: seq<Lexeme>, l: Lexeme)
    requires !IsOpening(Glyph(text, l)) && !IsClosing(Glyph(text, l))
    ensures StackAt(text, ls + [l], |ls| + 1) == StackAt(text, ls, |ls|)
  {
    hide Glyph, IsOpening, IsClosing;
    StateSnoc(text, ls, l);
    assert (ls + [l])[|ls|] == l;
  }

  lemma OtherToken(text: Text, ls: seq<Lexeme>, y: State, l: Lexeme, line: nat, next: nat)
    requires StateOk(text, ls, y) && Next(text, l, line) && |ls| < TOKENS
    requires !IsOpening(Glyph(text, l)) && !IsClosing(Glyph(text, l)) && ConditionsAt(ls + [l], |ls| + 1) == Some(next)
    ensures StateOk(text, ls + [l], y.(tokens := y.tokens + [NewToken(y, l, line)], conditional := next))
  {
    hide Scanned, TokensOk, TokenOk, StackAt, ConditionsAt, Glyph, Newlines;
    var t := NewToken(y, l, line);
    NewTokenOk(text, ls, y, l, line);
    OtherStack(text, ls, l);
    GlyphsSnoc(text, ls, l);
    AddToken(Glyphs(text, ls), y.tokens, y.stack, y.brace, Glyph(text, l), t);
    TokensSnoc(text, ls, y.tokens, y.tokens + [t], l);
  }

  function Opened(y: State, t: Token, c: char): State {
    y.(tokens := y.tokens + [t], stack := y.stack + [|y.tokens|], brace := if c == '{' then Some(|y.tokens|) else y.brace)
  }

  lemma OpeningToken(text: Text, ls: seq<Lexeme>, y: State, l: Lexeme, line: nat)
    requires StateOk(text, ls, y) && Next(text, l, line) && |ls| < TOKENS && l.kind.Plain? && IsOpening(Glyph(text, l))
    ensures Fine(text, ls + [l]) <==> |y.stack| < NESTING
    ensures |y.stack| < NESTING ==> StateOk(text, ls + [l], Opened(y, NewToken(y, l, line), Glyph(text, l)))
  {
    hide Scanned, TokensOk, TokenOk;
    var t := NewToken(y, l, line);
    NewTokenOk(text, ls, y, l, line);
    StateSnoc(text, ls, l);
    GlyphsSnoc(text, ls, l);
    AddToken(Glyphs(text, ls), y.tokens, y.stack, y.brace, Glyph(text, l), t);
    TokensSnoc(text, ls, y.tokens, y.tokens + [t], l);
  }

  /** The first character of a token's text. */
  function TokenGlyph(text: Text, t: Token): char {
    if t.begin < |text| then text[t.begin] else '#'
  }

  lemma StackTop(text: Text, ls: seq<Lexeme>, y: State)
    requires StateOk(text, ls, y) && y.stack != []
    ensures var o := y.stack[|y.stack| - 1];
            o < |ls| && Glyph(text, ls[o]) == TokenGlyph(text, y.tokens[o]) && y.tokens[o].pair.None?
  {
    var o := y.stack[|y.stack| - 1];
    assert o in y.stack;
    assert IsOpening(Glyphs(text, ls)[o]);
    assert TokenOk(text, ls, o, y.tokens[o]);
  }

  function Closed(y: State, t: Token, c: char): State
    requires y.stack != [] && y.stack[|y.stack| - 1] < |y.tokens|
  {
    var o := y.stack[|y.stack| - 1];
    y.(tokens := Paired(y.tokens, o, t), stack := y.stack[..|y.stack| - 1],
       brace := if c == '}' then y.tokens[o].brace else y.brace)
  }

  lemma ClosingToken(text: Text, ls: seq<Lexeme>, y: State, l: Lexeme, line: nat)
    requires StateOk(text, ls, y) && Next(text, l, line) && |ls| < TOKENS && l.kind.Plain? && IsClosing(Glyph(text, l))
    ensures y.stack == [] ==> !Fine(text, ls + [l])
    ensures y.stack != [] ==>
              var o := y.stack[|y.stack| - 1];
              && o < |y.tokens|
              && (Fine(text, ls + [l]) <==> SameKind(TokenGlyph(text, y.tokens[o]), Glyph(text, l)))
              && (Fine(text, ls + [l]) ==> StateOk(text, ls + [l], Closed(y, NewToken(y, l, line), Glyph(text, l))))
  {
    hide Scanned, TokensOk, TokenOk;
    StateSnoc(text, ls, l);
    if y.stack != [] {
      StackTop(text, ls, y);
      if SameKind(TokenGlyph(text, y.tokens[y.stack[|y.stack| - 1]]), Glyph(text, l)) { ClosedOk(text, ls, y, l, line); }
    }
  }

  lemma ClosedStack(text: Text, ls: seq<Lexeme>, l: Lexeme, s: seq<nat>)
    requires StackAt(text, ls, |ls|) == Some(s) && s != [] && s[|s| - 1] < |ls|
    requires IsClosing(Glyph(text, l)) && SameKind(Glyph(text, ls[s[|s| - 1]]), Glyph(text, l))
    ensures StackAt(text, ls + [l], |ls| + 1) == Some(s[..|s| - 1])
  {
    hide Glyph, SameKind;
    StateSnoc(text, ls, l);
    assert (ls + [l])[|ls|] == l && (ls + [l])[s[|s| - 1]] == ls[s[|s| - 1]];
  }

  lemma SameConditions(text: Text, ls: seq<Lexeme>, l: Lexeme)
    requires l.kind.Plain?
    ensures ConditionsAt(ls + [l], |ls| + 1) == ConditionsAt(ls, |ls|)
  {
    StateSnoc(text, ls, l);
  }

  lemma ClosedOk(text: Text, ls: seq<Lexeme>, y: State, l: Lexeme, line: nat)
    requires StateOk(text, ls, y) && Next(text, l, line) && |ls| < TOKENS && l.kind.Plain? && IsClosing(Glyph(text, l))
    requires y.stack != [] && y.stack[|y.stack| - 1] < |y.tokens|
    requires SameKind(TokenGlyph(text, y.tokens[y.stack[|y.stack| - 1]]), Glyph(text, l))
    ensures StateOk(text, ls + [l], Closed(y, NewToken(y, l, line), Glyph(text, l)))
  {
    hide Scanned, TokensOk, TokenOk, StackAt, ConditionsAt, Glyph, TokenGlyph;
    var o, t, c := y.stack[|y.stack| - 1], NewToken(y, l, line), Glyph(text, l);
    StackTop(text, ls, y);
    ClosedStack(text, ls, l, y.stack);
    SameConditions(text, ls, l);
    StateSnoc(text, ls, l);
    NewTokenOk(text, ls, y, l, line);
    GlyphsSnoc(text, ls, l);
    CloseToken(Glyphs(text, ls), y.tokens, y.stack, y.brace, c, t);
    TokensSnoc(text, ls, y.tokens, Paired(y.tokens, o, t), l);
  }

  class Document {
    const text: Text
    var i: nat
    var line: nat
    var conditional: nat
    var tokens: seq<Token>
    var stack: seq<nat>
    var brace: Option<nat>
    ghost var lexemes: seq<Lexeme>

    /** The cursor and the line count. */
    ghost predicate CursorOk()
      reads `i, `line
    {
      i <= |text| && line == 1 + Newlines(text, i)
    }

    ghost function Now(): State
      reads `tokens, `stack, `brace, `conditional
    {
      State(tokens, stack, brace, conditional)
    }

    constructor (text: Text)
      ensures this.text == text && CursorOk() && i == 0 && StateOk(text, [], Now()) && lexemes == []
    {
      this.text := text;
      i, line, conditional, tokens, stack, brace, lexemes := 0, 1, 0, [], [], None, [];
    }

    // ----- Cutting one lexeme -----

    /** `//` comments and directives run to the end of the line. */
    method ToLineEnd()
      requires CursorOk()
      modifies `i
      ensures i == LineEnd(text, old(i)) && CursorOk()
    {
      while i < |text| && text[i] != '\n'
        invariant CursorOk() && old(i) <= i && LineEnd(text, i) == LineEnd(text, old(i))
      {
        i := i + 1;
      }
    }

    method BlockComment() returns (ok: bool)
      requires CursorOk() && IsPair(text, i, '/', '*')
      modifies `i, `line
      ensures ok <==> CommentEnd(text, old(i) + 2).Some?
      ensures ok ==> i == CommentEnd(text, old(i) + 2).value && CursorOk()
    {
      i := i + 2;
      while i + 1 < |text| && !IsPair(text, i, '*', '/')
        invariant CursorOk() && CommentEnd(text, i) == CommentEnd(text, old(i) + 2)
      {
        line := line + if text[i] == '\n' then 1 else 0;
        i := i + 1;
      }
      if i + 1 >= |text| { return false; }
      i := i + 2;
      return true;
    }

    method Quoted() returns (ok: bool)
      requires CursorOk() && i < |text| && (text[i] == '"' || text[i] == '\'')
      modifies `i, `line
      ensures ok <==> QuoteEnd(text, old(i) + 1, text[old(i)]).Some?
      ensures ok ==> i == QuoteEnd(text, old(i) + 1, text[old(i)]).value && CursorOk()
    {
      var quote := text[i];
      i := i + 1;
      while i < |text|
        invariant CursorOk() && QuoteEnd(text, i, quote) == QuoteEnd(text, old(i) + 1, quote)
        decreases |text| - i
      {
        if text[i] == '\\' {
          if i + 1 >= |text| { return false; }
          line := line + if text[i + 1] == '\n' then 1 else 0;
          i := i + 2;
        } else if text[i] == quote {
          i := i + 1;
          return true;
        } else if text[i] == '\n' {
          return false;
        } else {
          i := i + 1;
        }
      }
      return false;
    }

    method Word()
      requires CursorOk() && i < |text| && IsWord(text[i])
      modifies `i
      ensures i == WordEnd(text, old(i) + 1) && CursorOk()
    {
      i := i + 1;
      while i < |text| && IsWord(text[i])
        invariant CursorOk() && WordEnd(text, i) == WordEnd(text, old(i) + 1)
      {
        i := i + 1;
      }
    }

    /** Comments, white space and directives. */
    method CutTrivia() returns (l: Option<Lexeme>)
      requires CursorOk() && i < |text|
      requires IsSpace(text[i]) || IsPair(text, i, '/', '/') || IsPair(text, i, '/', '*') || text[i] == '#'
      modifies `i, `line
      ensures l == LexemeAt(text, old(i)) && (l.Some? ==> CursorOk() && i == l.value.end)
    {
      var start := i;
      if IsSpace(text[i]) {
        line := line + if text[i] == '\n' then 1 else 0;
        i := i + 1;
        return Some(Lexeme(start, i, Trivia));
      }
      if IsPair(text, i, '/', '/') {
        ToLineEnd();
        return Some(Lexeme(start, i, Trivia));
      }
      if IsPair(text, i, '/', '*') {
        var ok := BlockComment();
        return if ok then Some(Lexeme(start, i, Trivia)) else None;
      }
      ToLineEnd();
      var branching := DirectiveOf(text[start..i]);
      return if branching.Some? then Bounded(Lexeme(start, i, Directive(branching.value))) else None;
    }

    method Cut() returns (l: Option<Lexeme>)
      requires CursorOk() && i < |text|
      modifies `i, `line
      ensures l == LexemeAt(text, old(i)) && (l.Some? ==> CursorOk() && i == l.value.end)
    {
      var start := i;
      if IsSpace(text[i]) || IsPair(text, i, '/', '/') || IsPair(text, i, '/', '*') || text[i] == '#' {
        l := CutTrivia();
        return;
      }
      if text[i] == '"' || text[i] == '\'' {
        var ok := Quoted();
        if !ok || TakesSuffix(text, i) { return None; }
      } else if IsWord(text[i]) {
        Word();
        if i < |text| && text[i] == '"' && IsRawPrefix(text[start..i]) { return None; }
      } else {
        i := i + 1;
      }
      return Bounded(Lexeme(start, i, Plain));
    }
  
    // ----- Adding one token -----

    /** Refused exactly when the conditions cannot take the directive. */
    method PushDirective(l: Lexeme, line0: nat, ghost ls: seq<Lexeme>) returns (ok: bool)
      requires StateOk(text, ls, Now()) && Next(text, l, line0) && l.kind.Directive? && |ls| < TOKENS
      modifies `tokens, `conditional
      ensures ok <==> Fine(text, ls + [l])
      ensures ok ==> StateOk(text, ls + [l], Now())
    {
      hide Scanned, TokensOk;
      StateSnoc(text, ls, l);
      ghost var y := Now();
      var t := Token(l.begin, l.end, line0, None, brace, true);
      match l.kind.branching {
        case Opens =>
          if conditional >= CONDITIONS { return false; }
          conditional := conditional + 1;
        case Closes =>
          if conditional == 0 { return false; }
          conditional := conditional - 1;
        case Continues =>
          if conditional == 0 { return false; }
        case Includes =>
      }
      OtherToken(text, ls, y, l, line0, conditional);
      tokens := tokens + [t];
      return true;
    }

    method PushPlain(l: Lexeme, line0: nat, ghost ls: seq<Lexeme>) returns (ok: bool)
      requires StateOk(text, ls, Now()) && Next(text, l, line0) && l.kind.Plain? && |ls| < TOKENS
      modifies `tokens, `stack, `brace
      ensures ok <==> Fine(text, ls + [l])
      ensures ok ==> StateOk(text, ls + [l], Now())
    {
      hide Scanned, TokensOk;
      StateSnoc(text, ls, l);
      var n, c := |tokens|, text[l.begin];
      var t := Token(l.begin, l.end, line0, None, brace, conditional != 0);
      if IsOpening(c) {
        OpeningToken(text, ls, Now(), l, line0);
        if |stack| >= NESTING { return false; }
        tokens, stack := tokens + [t], stack + [n];
        if c == '{' { brace := Some(n); }
      } else if IsClosing(c) {
        ClosingToken(text, ls, Now(), l, line0);
        if stack == [] { return false; }
        var opening := stack[|stack| - 1];
        if !SameKind(TokenGlyph(text, tokens[opening]), c) { return false; }
        stack := stack[..|stack| - 1];
        if c == '}' { brace := tokens[opening].brace; }
        tokens := tokens[opening := tokens[opening].(pair := Some(n))] + [t.(pair := Some(opening))];
      } else {
        OtherToken(text, ls, Now(), l, line0, conditional);
        tokens := tokens + [t];
      }
      return true;
    }

    /** A lexeme that is a token; it is refused exactly when the structure cannot take it. */
    method Push(l: Lexeme, line0: nat, ghost ls: seq<Lexeme>) returns (ok: bool)
      requires StateOk(text, ls, Now()) && Next(text, l, line0) && !l.kind.Trivia?
      modifies `tokens, `stack, `brace, `conditional
      ensures ok <==> Fine(text, ls + [l])
      ensures ok ==> StateOk(text, ls + [l], Now())
    {
      hide Scanned, TokensOk, StackAt, ConditionsAt;
      if |tokens| >= TOKENS { return false; }
      if l.kind.Directive? { ok := PushDirective(l, line0, ls); } else { ok := PushPlain(l, line0, ls); }
    }
  
    /** The lexeme at the cursor: cut, and pushed if it is a token. */
    method ReadLexeme() returns (ok: bool)
      requires CursorOk() && i < |text| && Lexing(text, lexemes, i) && StateOk(text, Solid(lexemes), Now())
      modifies this
      ensures !ok ==> !Accepts(text)
      ensures ok ==> CursorOk() && Lexing(text, lexemes, i) && StateOk(text, Solid(lexemes), Now()) && old(i) < i <= |text|
    {
      hide Accepts, StateOk, Lexing, LexemeAt, Fine, Solid;
      var start, line0 := i, line;
      var l := Cut();
      if l.None? { Stuck(text, lexemes, start); return false; }
      LexingSnoc(text, lexemes, start);
      SolidSnoc(lexemes, l.value);
      if !l.value.kind.Trivia? {
        ok := Push(l.value, line0, Solid(lexemes));
        if !ok { Stuck(text, lexemes, start); return; }
      }
      lexemes := lexemes + [l.value];
      ok := true;
    }

    /** The whole pass. */
    method Read() returns (ok: bool)
      requires CursorOk() && i == 0 && lexemes == [] && StateOk(text, [], Now()) && PlainText(text)
      modifies this
      ensures ok <==> Accepts(text)
      ensures ok ==> Complete(text, lexemes) && StateOk(text, Solid(lexemes), Now()) && stack == []
    {
      hide Complete, Accepts, StateOk, Lexing, CursorOk, Solid;
      LexingNone(text);
      while i < |text|
        invariant i <= |text| && CursorOk() && Lexing(text, lexemes, i) && StateOk(text, Solid(lexemes), Now())
        decreases |text| - i
      {
        ok := ReadLexeme();
        if !ok { return; }
      }
      OnlyOne(text, lexemes);
      Ended(text, lexemes, Now());
      return stack == [] && conditional == 0;
    }
  }

  lemma Ended(text: Text, ls: seq<Lexeme>, y: State)
    requires Lexing(text, ls, |text|) && StateOk(text, Solid(ls), y)
    ensures Complete(text, ls) <==> y.stack == [] && y.conditional == 0
  {
  }

  /** A finished token row: it is the text's own cutting, every bracket has its partner, every brace is recorded. */
  ghost predicate IsDocument(text: Text, ls: seq<Lexeme>, ts: seq<Token>) {
    && Complete(text, ls) && TokensOk(text, Solid(ls), ts)
    && Matched(Glyphs(text, Solid(ls)), ts, []) && Braced(Glyphs(text, Solid(ls)), ts)
  }

  /** Main result: a text is accepted exactly when it falls into lexemes and its tokens are balanced within the
      limits, and then the tokens are the ones the text determines. */
  method Parse(text: Text) returns (tokens: Option<seq<Token>>, ghost ls: seq<Lexeme>)
    ensures tokens.Some? <==> Accepts(text)
    ensures tokens.Some? ==> IsDocument(text, ls, tokens.value)
  {
    ls := [];
    if |text| > TEXT_BYTES || (exists i :: 0 <= i < |text| && text[i] == '\0') || Spliced(text) { return None, ls; }
    var d := new Document(text);
    var ok := d.Read();
    return if ok then Some(d.tokens) else None, d.lexemes;
  }

  // ----- What the parser relies on -----

  /** A token is the lexeme that starts at its place, and its first character is what the bracket structure sees. */
  lemma TokenIsLexeme(text: Text, ls: seq<Lexeme>, ts: seq<Token>, k: nat)
    requires IsDocument(text, ls, ts) && k < |ts|
    ensures ts[k].begin < ts[k].end <= |text| && ts[k].line == 1 + Newlines(text, ts[k].begin)
    ensures Some(Solid(ls)[k]) == LexemeAt(text, ts[k].begin)
    ensures Glyphs(text, Solid(ls))[k] == text[ts[k].begin]
  {
    hide Matched, Braced, Newlines, Solid;
    assert TokenOk(text, Solid(ls), k, ts[k]);
    var l := Solid(ls)[k];
    SolidIn(ls);
    assert l in Solid(ls);
    var q :| 0 <= q < |ls| && ls[q] == l;
  }

  /** Tokens are nonempty slices of the text, in order and disjoint, and the line of a token is one plus the
      number of line breaks before it. */
  lemma TokensAreSlices(text: Text, ls: seq<Lexeme>, ts: seq<Token>, a: nat, b: nat)
    requires IsDocument(text, ls, ts) && a <= b < |ts|
    ensures ts[a].begin < ts[a].end <= |text| && ts[a].line == 1 + Newlines(text, ts[a].begin)
    ensures a < b ==> ts[a].end <= ts[b].begin
  {
    TokenIsLexeme(text, ls, ts, a);
    if a < b {
      assert TokenOk(text, Solid(ls), a, ts[a]) && TokenOk(text, Solid(ls), b, ts[b]);
      var p, q := SolidPlaces(text, ls, a, b);
      LexingOrdered(text, ls, |text|, p, q);
    }
  }

  lemma {:induction false} SolidPlaces(text: Text, ls: seq<Lexeme>, a: nat, b: nat) returns (p: nat, q: nat)
    requires a < b < |Solid(ls)|
    ensures p < q < |ls| && ls[p] == Solid(ls)[a] && ls[q] == Solid(ls)[b]
  {
    var front := ls[..|ls| - 1];
    if b < |Solid(front)| {
      p, q := SolidPlaces(text, front, a, b);
    } else {
      SolidIn(front);
      assert Solid(front)[a] in Solid(front);
      p :| 0 <= p < |front| && front[p] == Solid(front)[a];
      q := |ls| - 1;
    }
  }

  /** Every character of the text lies in one lexeme: in a token, in white space or in a comment. */
  lemma {:induction false} Covered(text: Text, ls: seq<Lexeme>, i: nat, p: nat) returns (k: nat)
    requires Lexing(text, ls, i) && p < i
    ensures k < |ls| && ls[k].begin <= p < ls[k].end
    decreases |ls|
  {
    var n := |ls| - 1;
    if ls[n].begin <= p {
      k := n;
    } else {
      Starts(text, ls, i, n);
      k := Covered(text, ls[..n], ls[n].begin, p);
    }
  }

  /** `pair` is an involution without fixed points, opposite brackets of one kind, properly nested. */
  lemma PairsNest(text: Text, ls: seq<Lexeme>, ts: seq<Token>, a: nat, c: nat)
    requires IsDocument(text, ls, ts) && a < |ts| && c < |ts| && ts[a].pair.Some? && ts[c].pair.Some?
    ensures var g, b, d := Glyphs(text, Solid(ls)), ts[a].pair.value, ts[c].pair.value;
            && b < |ts| && ts[b].pair == Some(a) && b != a
            && (var pair := if a < b then [g[a], g[b]] else [g[b], g[a]]; pair == "()" || pair == "[]" || pair == "{}")
            && (a < c < b ==> a < d < b)
  {
    var g := Glyphs(text, Solid(ls));
    assert PairOk(g, ts, a, ts[a].pair.value);
    var b := ts[a].pair.value;
    BracketKinds(g[if a < b then a else b], g[if a < b then b else a]);
    if a < c < ts[a].pair.value { assert Inside(ts, [], a, c); }
  }

  /** Exactly the bracket tokens have partners. */
  lemma BracketsArePaired(text: Text, ls: seq<Lexeme>, ts: seq<Token>, k: nat)
    requires IsDocument(text, ls, ts) && k < |ts|
    ensures ts[k].pair.Some? <==> Glyphs(text, Solid(ls))[k] in "([{)]}"
  {
    var g := Glyphs(text, Solid(ls));
    if ts[k].pair.Some? { assert PairOk(g, ts, k, ts[k].pair.value); }
  }

  /** `brace` is the innermost opening brace that is still open just before the token. */
  lemma BraceIsInnermost(text: Text, ls: seq<Lexeme>, ts: seq<Token>, k: nat, j: nat)
    requires IsDocument(text, ls, ts) && j < k < |ts|
    ensures ts[k].brace == Some(j) <==>
            && Glyphs(text, Solid(ls))[j] == '{' && ts[j].pair.Some? && ts[j].pair.value >= k
            && forall m :: j < m < k && Glyphs(text, Solid(ls))[m] == '{' ==> ts[m].pair.Some? && ts[m].pair.value < k
  {
    var g := Glyphs(text, Solid(ls));
    assert Innermost(g, ts, k, ts[k].brace);
    InnermostUnique(g, ts, k, ts[k].brace, j);
    forall m | 0 <= m < k ensures Spans(g, ts, m, k) <==> g[m] == '{' && ts[m].pair.Some? && ts[m].pair.value >= k {
      BracketsArePaired(text, ls, ts, m);
    }
  }

  lemma InnermostUnique(g: seq<char>, ts: seq<Token>, k: nat, r: Option<nat>, j: nat)
    requires |g| == |ts| && j < k <= |ts| && Innermost(g, ts, k, r)
    ensures r == Some(j) <==> Spans(g, ts, j, k) && forall m :: j < m < k ==> !Spans(g, ts, m, k)
  {
    if r.Some? && r.value != j { assert Spans(g, ts, r.value, k); }
  }
}
