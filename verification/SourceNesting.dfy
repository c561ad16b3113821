/** Which token rows are balanced, said without a stack: nested groups of brackets, and counted conditions. Together with
    the printer: every source text that is written with balanced brackets and conditions is accepted. */
module SourceNesting {
  import opened Prelude
  import opened Lexemes
  import opened Brackets
  import opened Documents
  import opened SourcePrinter

  // ----- Brackets -----

  /** A token that is no bracket, or a bracket with everything inside and its partner. */
  datatype Nest = Leaf(c: char) | Group(open: char, inner: seq<Nest>, close: char)

  predicate WellFormed(f: seq<Nest>) {
    forall i :: 0 <= i < |f| ==>
                  match f[i]
                  case Leaf(c) => c !in "([{)]}"
                  case Group(a, inner, b) => ([a, b] == "()" || [a, b] == "[]" || [a, b] == "{}") && WellFormed(inner)
  }

  function Flat(f: seq<Nest>): seq<char> {
    if f == [] then []
    else (match f[0]
          case Leaf(c) => [c]
          case Group(a, inner, b) => [a] + Flat(inner) + [b]) + Flat(f[1..])
  }

  function Levels(f: seq<Nest>): nat {
    if f == [] then 0
    else
      var first := match f[0] case Leaf(_) => 0 case Group(_, inner, _) => 1 + Levels(inner);
      var rest := Levels(f[1..]);
      if first < rest then rest else first
  }

  /** The tokens from `n` on read like this row. */
  ghost predicate Reads(text: Text, ls: seq<Lexeme>, n: nat, g: seq<char>) {
    n + |g| <= |ls| && forall k {:trigger g[k]} :: 0 <= k < |g| ==> Glyph(text, ls[n + k]) == g[k]
  }

  lemma ReadsParts(text: Text, ls: seq<Lexeme>, n: nat, a: seq<char>, b: seq<char>)
    requires Reads(text, ls, n, a + b)
    ensures Reads(text, ls, n, a) && Reads(text, ls, n + |a|, b)
  {
    forall k | 0 <= k < |a| ensures Glyph(text, ls[n + k]) == a[k] { assert (a + b)[k] == a[k]; }
    forall k | 0 <= k < |b| ensures Glyph(text, ls[n + |a| + k]) == b[k] { assert (a + b)[|a| + k] == b[k]; }
  }

  function Head(t: Nest): seq<char> {
    match t
    case Leaf(c) => [c]
    case Group(a, inner, b) => [a] + Flat(inner) + [b]
  }

  lemma Unfold(f: seq<Nest>)
    requires f != [] && WellFormed(f)
    ensures Flat(f) == Head(f[0]) + Flat(f[1..]) && Levels(f[1..]) <= Levels(f) && WellFormed(f[1..])
    ensures match f[0]
            case Leaf(c) => !IsOpening(c) && !IsClosing(c)
            case Group(a, inner, b) => IsOpening(a) && SameKind(a, b) && WellFormed(inner) && 1 + Levels(inner) <= Levels(f)
  {
    match f[0]
    case Leaf(c) => BracketKinds(c, c);
    case Group(a, _, b) => BracketKinds(a, b);
  }

  /** Nested groups leave the stack as they found it. */
  lemma {:induction false} NestsPass(text: Text, ls: seq<Lexeme>, n: nat, f: seq<Nest>, s: seq<nat>)
    requires WellFormed(f) && Reads(text, ls, n, Flat(f)) && StackAt(text, ls, n) == Some(s) && |s| + Levels(f) <= NESTING
    ensures n + |Flat(f)| <= |ls| && StackAt(text, ls, n + |Flat(f)|) == Some(s)
    decreases f, 0
  {
    hide StackAt, Reads, Levels, WellFormed, IsOpening, IsClosing, SameKind, Flat, Head;
    Inside(text, ls, n, Flat(f));
    if f == [] {
      FlatNone();
    } else {
      Unfold(f);
      ReadsParts(text, ls, n, Head(f[0]), Flat(f[1..]));
      match f[0] {
        case Leaf(c) =>
          LeafHead(c);
          LeafPasses(text, ls, n, c, s);
        case Group(a, inner, b) => GroupPasses(text, ls, n, a, inner, b, s);
      }
      NestsPass(text, ls, n + |Head(f[0])|, f[1..], s);
    }
  }

  lemma LeafHead(c: char)
    ensures Head(Leaf(c)) == [c]
  {
  }

  lemma FlatNone()
    ensures Flat([]) == []
  {
  }

  lemma Inside(text: Text, ls: seq<Lexeme>, n: nat, g: seq<char>)
    requires Reads(text, ls, n, g)
    ensures n + |g| <= |ls|
  {
  }

  lemma {:induction false} GroupPasses(text: Text, ls: seq<Lexeme>, n: nat, a: char, inner: seq<Nest>, b: char, s: seq<nat>)
    requires IsOpening(a) && SameKind(a, b) && WellFormed(inner) && |s| + 1 + Levels(inner) <= NESTING
    requires Reads(text, ls, n, Head(Group(a, inner, b))) && StackAt(text, ls, n) == Some(s)
    ensures n + |Head(Group(a, inner, b))| <= |ls| && StackAt(text, ls, n + |Head(Group(a, inner, b))|) == Some(s)
    decreases inner, 1
  {
    hide StackAt, Levels, WellFormed, IsOpening, IsClosing, SameKind, Flat;
    ReadsParts(text, ls, n, [a] + Flat(inner), [b]);
    ReadsParts(text, ls, n, [a], Flat(inner));
    assert Glyph(text, ls[n + 0]) == [a][0];
    GroupOpens(text, ls, n, s);
    NestsPass(text, ls, n + 1, inner, s + [n]);
    GroupCloses(text, ls, n + 1 + |Flat(inner)|, n, b, s);
  }

  lemma GroupOpens(text: Text, ls: seq<Lexeme>, n: nat, s: seq<nat>)
    requires n < |ls| && StackAt(text, ls, n) == Some(s) && IsOpening(Glyph(text, ls[n])) && |s| < NESTING
    ensures StackAt(text, ls, n + 1) == Some(s + [n])
  {
  }

  lemma LeafPasses(text: Text, ls: seq<Lexeme>, n: nat, c: char, s: seq<nat>)
    requires Reads(text, ls, n, [c]) && !IsOpening(c) && !IsClosing(c) && StackAt(text, ls, n) == Some(s)
    ensures StackAt(text, ls, n + 1) == Some(s)
  {
    assert Glyph(text, ls[n + 0]) == [c][0];
  }

  lemma GroupCloses(text: Text, ls: seq<Lexeme>, n: nat, o: nat, b: char, s: seq<nat>)
    requires o < n < |ls| && StackAt(text, ls, n) == Some(s + [o]) && Reads(text, ls, n, [b])
    requires SameKind(Glyph(text, ls[o]), b)
    ensures StackAt(text, ls, n + 1) == Some(s)
  {
    assert Glyph(text, ls[n + 0]) == [b][0];
    assert (s + [o])[..|s|] == s;
  }

  // ----- Conditions -----

  function Change(k: Kind): int {
    if k.Directive? && k.branching.Opens? then 1 else if k.Directive? && k.branching.Closes? then -1 else 0
  }

  /** Conditions opened minus conditions closed by the first `n` tokens. */
  function Balance(ks: seq<Kind>, n: nat): int
    requires n <= |ks|
  {
    if n == 0 then 0 else Balance(ks, n - 1) + Change(ks[n - 1])
  }

  /** No more than 64 conditions are open, and only an open one is closed or continued. */
  predicate InBalance(ks: seq<Kind>, k: nat)
    requires k < |ks|
  {
    ks[k].Directive? ==>
      && (ks[k].branching.Opens? ==> Balance(ks, k) < 64)
      && (ks[k].branching.Closes? || ks[k].branching.Continues? ==> Balance(ks, k) > 0)
  }

  ghost predicate AreKinds(ls: seq<Lexeme>, ks: seq<Kind>) {
    |ks| == |ls| && forall k :: 0 <= k < |ls| ==> ks[k] == ls[k].kind
  }

  /** The conditions are accepted exactly if they are counted in balance all along, and the count is that balance. */
  lemma {:induction false} ConditionsAreCounted(ls: seq<Lexeme>, ks: seq<Kind>, n: nat)
    requires AreKinds(ls, ks) && n <= |ls|
    ensures ConditionsAt(ls, n).Some? <==> forall k :: 0 <= k < n ==> InBalance(ks, k)
    ensures ConditionsAt(ls, n).Some? ==> ConditionsAt(ls, n).value == Balance(ks, n)
  {
    if n > 0 {
      ConditionsAreCounted(ls, ks, n - 1);
      assert (forall k :: 0 <= k < n ==> InBalance(ks, k)) <==> (forall k :: 0 <= k < n - 1 ==> InBalance(ks, k)) && InBalance(ks, n - 1);
    }
  }

  // ----- Whole texts -----

  /** What the bracket structure sees of a written token. */
  function Sign(a: Atom): char {
    if a.Directive? || Write(a) == [] then '#' else Write(a)[0]
  }

  function Signs(a: seq<Atom>): (r: seq<char>)
    ensures |r| == |a| && forall k :: 0 <= k < |r| ==> r[k] == Sign(a[k])
  {
    seq(|a|, k requires 0 <= k < |a| => Sign(a[k]))
  }

  function Kinds(a: seq<Atom>): (r: seq<Kind>)
    requires AllWritable(a)
    ensures |r| == |a| && forall k :: 0 <= k < |r| ==> r[k] == KindOf(a[k])
  {
    seq(|a|, k requires 0 <= k < |a| => KindOf(a[k]))
  }

  lemma {:induction false} TokensAreWritable(a: seq<Atom>, n: nat)
    requires n <= |a| && forall k :: 0 <= k < |a| ==> Writable(a[k])
    ensures forall t :: t in Tokens(a, n) ==> Writable(t) && !t.LineComment? && !t.BlockComment?
  {
    hide Writable;
    if n > 0 { TokensAreWritable(a, n - 1); }
  }

  predicate AllWritable(a: seq<Atom>) {
    forall k :: 0 <= k < |a| ==> Writable(a[k])
  }

  /** Conditions are in balance all along, and closed at the end. */
  ghost predicate Balanced(ks: seq<Kind>) {
    Balance(ks, |ks|) == 0 && forall k :: 0 <= k < |ks| ==> InBalance(ks, k)
  }

  lemma BalancedIsClosed(ls: seq<Lexeme>, ks: seq<Kind>)
    requires AreKinds(ls, ks) && Balanced(ks)
    ensures |ks| == |ls| && ConditionsAt(ls, |ls|) == Some(0)
  {
    ConditionsAreCounted(ls, ks, |ls|);
  }

  /** Every text is accepted that is written line by line from tokens, comments and directives, within the limits and
      without a spliced line, such that its brackets nest in groups no deeper than 64 and its conditions are in balance
      and all closed. */
  lemma WrittenIsAccepted(a: seq<Atom>, t: seq<Atom>, f: seq<Nest>)
    requires AllWritable(a) && t == Tokens(a, |a|) && |t| <= TOKENS && PlainText(WriteAll(a, |a|))
    requires WellFormed(f) && Levels(f) <= NESTING && Flat(f) == Signs(t)
    requires AllWritable(t) && Balanced(Kinds(t))
    ensures Accepts(WriteAll(a, |a|))
  {
    hide *;
    var ls := WrittenTokens(a, t);
    NestsPass(WriteAll(a, |a|), Solid(ls), 0, f, []);
    BalancedIsClosed(Solid(ls), Kinds(t));
    Completes(WriteAll(a, |a|), ls, f, Kinds(t));
  }

  /** The tokens of a written text have the signs and kinds of what was written. */
  lemma WrittenTokens(a: seq<Atom>, t: seq<Atom>) returns (ls: seq<Lexeme>)
    requires AllWritable(a) && AllWritable(t) && t == Tokens(a, |a|)
    ensures var text := WriteAll(a, |a|);
            && Lexing(text, ls, |text|) && |Solid(ls)| == |t| && StackAt(text, Solid(ls), 0) == Some([])
            && Reads(text, Solid(ls), 0, Signs(t)) && AreKinds(Solid(ls), Kinds(t))
  {
    hide Writable, Write, Lexing, WriteAll, Tokens, StackAt, Solid, Signs, KindOf, Reads, AreAtoms, Kinds, AreKinds;
    TokensAreWritable(a, |a|);
    ls := WrittenIsRead(a);
    GlyphsAreSigns(WriteAll(a, |a|), Solid(ls), t);
    AtomKinds(WriteAll(a, |a|), Solid(ls), t);
  }

  lemma Completes(text: Text, ls: seq<Lexeme>, f: seq<Nest>, ks: seq<Kind>)
    requires PlainText(text) && Lexing(text, ls, |text|) && |Solid(ls)| == |Flat(f)| == |ks| <= TOKENS
    requires StackAt(text, Solid(ls), |Flat(f)|) == Some([])
    requires ConditionsAt(Solid(ls), |Solid(ls)|) == Some(0)
    ensures Accepts(text)
  {
    hide PlainText, Lexing, StackAt, ConditionsAt, Solid, Flat;
    assert Complete(text, ls);
  }

  lemma AtomKinds(text: Text, ls: seq<Lexeme>, a: seq<Atom>)
    requires AreAtoms(text, ls, a) && AllWritable(a)
    ensures AreKinds(ls, Kinds(a))
  {
    hide Writable, Write, KindOf;
    forall k | 0 <= k < |ls| ensures Kinds(a)[k] == ls[k].kind { assert IsAtom(text, ls[k], a[k]); }
  }

  lemma GlyphsAreSigns(text: Text, ls: seq<Lexeme>, a: seq<Atom>)
    requires AreAtoms(text, ls, a) && forall k :: 0 <= k < |a| ==> !a[k].LineComment? && !a[k].BlockComment?
    ensures |ls| == |a| == |Signs(a)| && Reads(text, ls, 0, Signs(a)) && StackAt(text, ls, 0) == Some([])
  {
    forall k | 0 <= k < |ls| ensures Glyph(text, ls[k]) == Sign(a[k]) {
      assert IsAtom(text, ls[k], a[k]);
      GlyphIsSign(text, ls[k], a[k]);
    }
  }

  lemma GlyphIsSign(text: Text, l: Lexeme, a: Atom)
    requires IsAtom(text, l, a) && !a.LineComment? && !a.BlockComment?
    ensures Glyph(text, l) == Sign(a)
  {
    if !a.Directive? { assert Write(a) != [] && text[l.begin] == text[l.begin..l.end][0]; }
  }
}
