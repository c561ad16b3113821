/** Splitting the inside of a bracket into arguments at its top-level commas. `g` holds the first character of
    each token, which for brackets and commas is the whole token. */
module Arguments {
  import opened Prelude
  import opened Lexemes
  import opened Brackets
  import opened Documents

  const MAX_ARGUMENTS := 64

  /** First token of an argument, and the one behind its last. */
  datatype Range = Range(first: nat, last: nat)

  /** No bracket opened after `o` is still open at `k`. */
  ghost predicate TopLevel(ts: seq<Token>, o: nat, k: nat) {
    forall a :: o < a < k && a < |ts| && ts[a].pair.Some? && ts[a].pair.value > a ==> ts[a].pair.value < k
  }

  ghost predicate IsSeparator(g: seq<char>, ts: seq<Token>, o: nat, k: nat)
    requires |g| == |ts|
  {
    o < k < |g| && g[k] == ',' && TopLevel(ts, o, k)
  }

  /** The separators strictly inside the bracket, up to `k`, in order. */
  ghost predicate Separators(g: seq<char>, ts: seq<Token>, o: nat, k: nat, cs: seq<nat>)
    requires |g| == |ts|
  {
    Increasing(cs) && forall c: nat :: c in cs <==> c < k && IsSeparator(g, ts, o, c)
  }

  /** Where the argument after the first `n` separators starts. */
  function StartOf(o: nat, cs: seq<nat>, n: nat): nat
    requires n <= |cs|
  {
    if n == 0 then o + 1 else cs[n - 1] + 1
  }

  /** One range per separator, from behind the previous one up to it. */
  ghost predicate Cuts(o: nat, cs: seq<nat>, out: seq<Range>) {
    |out| == |cs| && forall n {:trigger StartOf(o, cs, n)} {:trigger out[n]} :: 0 <= n < |out| ==> out[n] == Range(StartOf(o, cs, n), cs[n])
  }

  /** The ranges between the separators of the bracket; a last one only if something follows the last comma. */
  ghost predicate IsSplit(g: seq<char>, ts: seq<Token>, o: nat, close: nat, cs: seq<nat>, out: seq<Range>)
    requires |g| == |ts|
  {
    && Separators(g, ts, o, close, cs)
    && var tail := StartOf(o, cs, |cs|);
    && |out| == |cs| + (if tail < close then 1 else 0)
    && Cuts(o, cs, out[..|cs|]) && (tail < close ==> out[|cs|] == Range(tail, close))
  }

  ghost predicate NoneEmpty(o: nat, cs: seq<nat>) {
    forall n {:trigger StartOf(o, cs, n)} :: 0 <= n < |cs| ==> StartOf(o, cs, n) < cs[n]
  }

  function Pieces(o: nat, close: nat, cs: seq<nat>): nat {
    |cs| + if StartOf(o, cs, |cs|) < close then 1 else 0
  }

  /** An argument list is refused for an empty argument before a comma and for more than 64 arguments. */
  ghost predicate Splittable(g: seq<char>, ts: seq<Token>, o: nat, close: nat)
    requires |g| == |ts|
  {
    exists cs :: Separators(g, ts, o, close, cs) && NoneEmpty(o, cs) && Pieces(o, close, cs) <= MAX_ARGUMENTS
  }

  // ----- One step of the scan -----

  /** The scan stands at `i`, between two top-level tokens. */
  ghost predicate At(g: seq<char>, ts: seq<Token>, o: nat, close: nat, i: nat, cs: seq<nat>) {
    && Matched(g, ts, []) && o < close < |ts| && ts[o].pair == Some(close) && o < i <= close
    && TopLevel(ts, o, i) && Separators(g, ts, o, i, cs)
  }

  lemma Begin(g: seq<char>, ts: seq<Token>, o: nat, close: nat)
    requires Matched(g, ts, []) && o < |ts| && ts[o].pair == Some(close) && o < close
    ensures At(g, ts, o, close, o + 1, [])
  {
    assert PairOk(g, ts, o, close);
  }

  lemma PassToken(g: seq<char>, ts: seq<Token>, o: nat, close: nat, i: nat, cs: seq<nat>)
    requires At(g, ts, o, close, i, cs) && i < close && !IsOpening(g[i])
    ensures At(g, ts, o, close, i + 1, if g[i] == ',' then cs + [i] else cs)
  {
    var j := i + 1;
    if ts[i].pair.Some? { assert PairOk(g, ts, i, ts[i].pair.value); }
    assert TopLevel(ts, o, j);
    var r := if g[i] == ',' then cs + [i] else cs;
    forall c: nat ensures c in r <==> c < j && IsSeparator(g, ts, o, c) { assert c in cs <==> c < i && IsSeparator(g, ts, o, c); }
    forall x | 0 <= x < |cs| ensures cs[x] < i { assert cs[x] in cs; }
  }

  lemma SkipBracket(g: seq<char>, ts: seq<Token>, o: nat, close: nat, i: nat, cs: seq<nat>)
    requires At(g, ts, o, close, i, cs) && i < close && IsOpening(g[i])
    ensures ts[i].pair.Some? && i < ts[i].pair.value < close
    ensures At(g, ts, o, close, ts[i].pair.value + 1, cs)
  {
    assert ts[i].pair.Some?;
    var p := ts[i].pair.value;
    assert PairOk(g, ts, i, p) && Inside(ts, [], o, i);
    var j := p + 1;
    forall a | o < a < j && ts[a].pair.Some? && ts[a].pair.value > a ensures ts[a].pair.value < j {
      if i < a < p { assert Inside(ts, [], i, a); }
    }
    forall c: nat ensures c in cs <==> c < j && IsSeparator(g, ts, o, c) {
      assert c in cs <==> c < i && IsSeparator(g, ts, o, c);
      if i < c < p { assert !TopLevel(ts, o, c); }
      if c == p { assert g[c] != ','; }
    }
  }

  // ----- The splitter -----

  lemma SeparatorsUnique(g: seq<char>, ts: seq<Token>, o: nat, k: nat, a: seq<nat>, b: seq<nat>)
    requires |g| == |ts| && Separators(g, ts, o, k, a) && Separators(g, ts, o, k, b)
    ensures a == b
  {
    IncreasingUnique(a, b);
  }

  /** Separators found early are the first ones of the whole bracket. */
  lemma {:induction false} SeparatorsPrefix(g: seq<char>, ts: seq<Token>, o: nat, i: nat, a: seq<nat>, close: nat, b: seq<nat>)
    requires |g| == |ts| && i <= close && Separators(g, ts, o, i, a) && Separators(g, ts, o, close, b)
    ensures a <= b
    decreases |b|
  {
    var n := |b|;
    if n > 0 && b[n - 1] >= i {
      var c := b[..n - 1];
      assert b == c + [b[n - 1]];
      assert b[n - 1] in b;
      forall x: nat ensures x in c <==> x < b[n - 1] && IsSeparator(g, ts, o, x) { assert x in b <==> x < close && IsSeparator(g, ts, o, x); }
      SeparatorsPrefix(g, ts, o, i, a, b[n - 1], c);
    } else {
      forall x: nat ensures x in a <==> x in b {
        assert x in a <==> x < i && IsSeparator(g, ts, o, x);
        assert x in b <==> x < close && IsSeparator(g, ts, o, x);
        if x in b { assert x <= b[n - 1]; }
      }
      IncreasingUnique(a, b);
    }
  }

  /** An empty argument found on the way stays one. */
  lemma EmptyStays(g: seq<char>, ts: seq<Token>, o: nat, close: nat, i: nat, cs: seq<nat>)
    requires |g| == |ts| && i < close && Separators(g, ts, o, i + 1, cs + [i]) && StartOf(o, cs, |cs|) >= i
    ensures !Splittable(g, ts, o, close)
  {
    forall all | Separators(g, ts, o, close, all) ensures !NoneEmpty(o, all) {
      SeparatorsPrefix(g, ts, o, i + 1, cs + [i], close, all);
      var n := |cs|;
      assert all[n] == (cs + [i])[n];
      assert StartOf(o, all, n) == StartOf(o, cs, n) by { if n > 0 { assert all[n - 1] == (cs + [i])[n - 1]; } }
    }
  }

  lemma SplittableIff(g: seq<char>, ts: seq<Token>, o: nat, close: nat, cs: seq<nat>)
    requires |g| == |ts| && Separators(g, ts, o, close, cs)
    ensures Splittable(g, ts, o, close) <==> NoneEmpty(o, cs) && Pieces(o, close, cs) <= MAX_ARGUMENTS
  {
    forall all | Separators(g, ts, o, close, all) ensures all == cs { SeparatorsUnique(g, ts, o, close, cs, all); }
  }

  lemma CutsSnoc(o: nat, cs: seq<nat>, out: seq<Range>, i: nat)
    requires Cuts(o, cs, out) && NoneEmpty(o, cs) && StartOf(o, cs, |cs|) < i
    ensures Cuts(o, cs + [i], out + [Range(StartOf(o, cs, |cs|), i)]) && NoneEmpty(o, cs + [i])
  {
    var r, q := cs + [i], out + [Range(StartOf(o, cs, |cs|), i)];
    forall n | 0 <= n <= |cs| ensures q[n] == Range(StartOf(o, r, n), r[n]) && StartOf(o, r, n) < r[n] {
      SameStart(o, cs, i, n);
      if n < |cs| { assert out[n] == Range(StartOf(o, cs, n), cs[n]); }
    }
    hide StartOf;
    assert |q| == |r| == |cs| + 1;
  }

  lemma SameStart(o: nat, cs: seq<nat>, i: nat, n: nat)
    requires n <= |cs|
    ensures StartOf(o, cs + [i], n) == StartOf(o, cs, n)
  {
  }

  /** The arguments between a bracket and its partner. */
  method Arguments(g: seq<char>, ts: seq<Token>, opening: nat) returns (out: Option<seq<Range>>, ghost cs: seq<nat>)
    requires Matched(g, ts, []) && opening < |ts| && (ts[opening].pair.Some? ==> opening < ts[opening].pair.value)
    ensures out.Some? <==> ts[opening].pair.Some? && Splittable(g, ts, opening, ts[opening].pair.value)
    ensures out.Some? ==> IsSplit(g, ts, opening, ts[opening].pair.value, cs, out.value) && NoneEmpty(opening, cs)
  {
    cs := [];
    if ts[opening].pair.None? { return None, cs; }
    var closing := ts[opening].pair.value;
    Begin(g, ts, opening, closing);
    var ranges: seq<Range> := [];
    var start: nat, i: nat := opening + 1, opening + 1;
    while i < closing
      invariant opening < i <= closing && At(g, ts, opening, closing, i, cs)
      invariant start == StartOf(opening, cs, |cs|) && start <= i && Cuts(opening, cs, ranges) && NoneEmpty(opening, cs)
      decreases closing - i
    {
      hide TopLevel, Matched, Separators, NoneEmpty, Cuts;
      if g[i] == ',' {
        PassToken(g, ts, opening, closing, i, cs);
        if i == start { EmptyAt(g, ts, opening, closing, i, cs); return None, cs; }
        CutsSnoc(opening, cs, ranges, i);
        ranges := ranges + [Range(start, i)];
        start, cs := i + 1, cs + [i];
        i := i + 1;
      } else if IsOpening(g[i]) {
        SkipBracket(g, ts, opening, closing, i, cs);
        i := ts[i].pair.value + 1;
      } else {
        PassToken(g, ts, opening, closing, i, cs);
        i := i + 1;
      }
    }
    Finish(g, ts, opening, closing, cs, ranges);
    if start < closing { ranges := ranges + [Range(start, closing)]; }
    return if |ranges| <= MAX_ARGUMENTS then Some(ranges) else None, cs;
  }

  lemma EmptyAt(g: seq<char>, ts: seq<Token>, o: nat, close: nat, i: nat, cs: seq<nat>)
    requires i < close && At(g, ts, o, close, i + 1, cs + [i]) && StartOf(o, cs, |cs|) == i
    ensures |g| == |ts| && !Splittable(g, ts, o, close)
  {
    EmptyStays(g, ts, o, close, i, cs);
  }

  lemma Finish(g: seq<char>, ts: seq<Token>, o: nat, close: nat, cs: seq<nat>, out: seq<Range>)
    requires At(g, ts, o, close, close, cs) && Cuts(o, cs, out) && NoneEmpty(o, cs)
    ensures var tail := StartOf(o, cs, |cs|);
            var all := if tail < close then out + [Range(tail, close)] else out;
            && IsSplit(g, ts, o, close, cs, all)
            && (Splittable(g, ts, o, close) <==> |all| <= MAX_ARGUMENTS)
  {
    var tail := StartOf(o, cs, |cs|);
    SplittableIff(g, ts, o, close, cs);
    assert (out + [Range(tail, close)])[..|cs|] == out;
    assert out[..|cs|] == out;
  }

  // ----- What a split means -----

  lemma StartsIncrease(o: nat, cs: seq<nat>, m: nat, n: nat)
    requires Increasing(cs) && NoneEmpty(o, cs) && m <= n <= |cs|
    ensures StartOf(o, cs, m) <= StartOf(o, cs, n)
  {
    if m < n {
      assert StartOf(o, cs, m) < cs[m];
      assert m < n - 1 ==> cs[m] < cs[n - 1];
    }
  }

  /** The number of separators before a token. */
  lemma Place(o: nat, cs: seq<nat>, k: nat) returns (n: nat)
    requires o < k && k !in cs
    ensures n <= |cs| && StartOf(o, cs, n) <= k && (n < |cs| ==> k < cs[n])
  {
    n := 0;
    while n < |cs| && cs[n] < k
      invariant n <= |cs| && StartOf(o, cs, n) <= k
    {
      n := n + 1;
    }
    assert n < |cs| ==> cs[n] in cs;
  }

  lemma RangeIs(g: seq<char>, ts: seq<Token>, o: nat, close: nat, cs: seq<nat>, out: seq<Range>, n: nat)
    requires |g| == |ts| && IsSplit(g, ts, o, close, cs, out) && NoneEmpty(o, cs) && n < |out|
    ensures out[n] == Range(StartOf(o, cs, n), if n < |cs| then cs[n] else close)
    ensures o < out[n].first < out[n].last <= close
  {
    if n < |cs| {
      assert out[n] == out[..|cs|][n];
      assert cs[n] in cs && StartOf(o, cs, n) < cs[n];
    }
    StartsIncrease(o, cs, 0, n);
  }

  /** Ranges are nonempty, in order and disjoint, with a separator between neighbours. */
  lemma RangesInOrder(g: seq<char>, ts: seq<Token>, o: nat, close: nat, cs: seq<nat>, out: seq<Range>, m: nat, n: nat)
    requires |g| == |ts| && IsSplit(g, ts, o, close, cs, out) && NoneEmpty(o, cs) && m < n < |out|
    ensures o < out[m].first < out[m].last < out[n].first < out[n].last <= close
    ensures n == m + 1 ==> out[n].first == out[m].last + 1 && out[m].last in cs
  {
    RangeIs(g, ts, o, close, cs, out, m);
    RangeIs(g, ts, o, close, cs, out, n);
    StartsIncrease(o, cs, m + 1, n);
  }

  /** Joined by their commas the ranges give the inside of the bracket back, one trailing comma allowed: every
      token inside is a separator or lies in a range, never both. */
  lemma Rebuilds(g: seq<char>, ts: seq<Token>, o: nat, close: nat, cs: seq<nat>, out: seq<Range>, k: nat)
    requires |g| == |ts| && IsSplit(g, ts, o, close, cs, out) && NoneEmpty(o, cs) && o < k < close
    ensures k in cs <==> forall n :: 0 <= n < |out| ==> !(out[n].first <= k < out[n].last)
  {
    hide NoneEmpty, Cuts;
    if k in cs {
      var c :| 0 <= c < |cs| && cs[c] == k;
      forall n | 0 <= n < |out| ensures !(out[n].first <= k < out[n].last) { SeparatorOutside(g, ts, o, close, cs, out, c, n); }
    } else {
      var n := Place(o, cs, k);
      RangeIs(g, ts, o, close, cs, out, n);
    }
  }

  lemma SeparatorOutside(g: seq<char>, ts: seq<Token>, o: nat, close: nat, cs: seq<nat>, out: seq<Range>, c: nat, n: nat)
    requires |g| == |ts| && IsSplit(g, ts, o, close, cs, out) && NoneEmpty(o, cs) && c < |cs| && n < |out|
    ensures !(out[n].first <= cs[c] < out[n].last)
  {
    RangeIs(g, ts, o, close, cs, out, n);
    if n > c { StartsIncrease(o, cs, c + 1, n); }
    assert n < c ==> cs[n] < cs[c];
  }

  /** A bracket inside lies in one range with its partner: skipping to `pair` misses no separator. */
  lemma BracketsStayWhole(g: seq<char>, ts: seq<Token>, o: nat, close: nat, cs: seq<nat>, out: seq<Range>, a: nat)
    returns (n: nat)
    requires Matched(g, ts, []) && o < |ts| && ts[o].pair == Some(close) && o < close
    requires IsSplit(g, ts, o, close, cs, out) && NoneEmpty(o, cs)
    requires o < a < close && ts[a].pair.Some? && a < ts[a].pair.value
    ensures n < |out| && out[n].first <= a < ts[a].pair.value < out[n].last
  {
    hide NoneEmpty, Cuts;
    NoSeparatorInside(g, ts, o, close, cs, a);
    n := Place(o, cs, a);
    assert n < |cs| ==> cs[n] in cs;
    RangeIs(g, ts, o, close, cs, out, n);
  }

  lemma NoSeparatorInside(g: seq<char>, ts: seq<Token>, o: nat, close: nat, cs: seq<nat>, a: nat)
    requires Matched(g, ts, []) && o < |ts| && ts[o].pair == Some(close) && Separators(g, ts, o, close, cs)
    requires o < a < close && ts[a].pair.Some? && a < ts[a].pair.value
    ensures ts[a].pair.value < close && forall c :: c in cs ==> !(a <= c <= ts[a].pair.value)
  {
    var p := ts[a].pair.value;
    assert PairOk(g, ts, o, close) && PairOk(g, ts, a, p) && Inside(ts, [], o, a);
    forall c | c in cs ensures !(a <= c <= p) { assert IsSeparator(g, ts, o, c); }
  }

  // ----- In a parsed document -----

  /** A token that starts with a bracket or a comma is that character and nothing else. */
  lemma HeadIsToken(text: Text, ls: seq<Lexeme>, ts: seq<Token>, k: nat)
    requires IsDocument(text, ls, ts) && k < |ts|
    ensures var c := Glyphs(text, Solid(ls))[k];
            c == ',' || IsOpening(c) || IsClosing(c) ==>
              ts[k].begin < |text| && text[ts[k].begin] == c && ts[k].end == ts[k].begin + 1
  {
    hide Matched, Braced, Newlines, Solid, ConditionsAt, CommentEnd, LineEnd, DirectiveOf, QuoteEnd, WordEnd;
    TokenIsLexeme(text, ls, ts, k);
    assert TokenOk(text, Solid(ls), k, ts[k]);
  }

  /** What the splitter relies on holds at every bracket of every document. */
  lemma OpeningIsPaired(text: Text, ls: seq<Lexeme>, ts: seq<Token>, o: nat)
    requires IsDocument(text, ls, ts) && o < |ts| && ts[o].pair.Some?
    ensures var g, p := Glyphs(text, Solid(ls)), ts[o].pair.value;
            Matched(g, ts, []) && (IsOpening(g[o]) <==> o < p) && (IsClosing(g[o]) <==> p < o)
  {
    BracketsArePaired(text, ls, ts, o);
    PairsNest(text, ls, ts, o, o);
  }

  /** The arguments at any token of a parsed document: an opening bracket is split at its top-level commas, a closing
      one has none, and any other token is refused. */
  method DocumentArguments(text: Text, ts: seq<Token>, opening: nat, ghost ls: seq<Lexeme>)
    returns (out: Option<seq<Range>>, ghost cs: seq<nat>)
    requires IsDocument(text, ls, ts)
    ensures opening >= |ts| ==> out.None?
    ensures opening < |ts| && IsOpening(Glyphs(text, Solid(ls))[opening]) ==>
              && ts[opening].pair.Some? && opening < ts[opening].pair.value
              && (out.Some? <==> Splittable(Glyphs(text, Solid(ls)), ts, opening, ts[opening].pair.value))
    ensures opening < |ts| && IsOpening(Glyphs(text, Solid(ls))[opening]) && out.Some? ==>
              IsSplit(Glyphs(text, Solid(ls)), ts, opening, ts[opening].pair.value, cs, out.value) && NoneEmpty(opening, cs)
    ensures opening < |ts| && !IsOpening(Glyphs(text, Solid(ls))[opening]) ==>
              out == if IsClosing(Glyphs(text, Solid(ls))[opening]) then Some([]) else None
  {
    hide Matched, Braced, Splittable, IsSplit, NoneEmpty, TokensOk, Complete;
    cs := [];
    if opening >= |ts| { return None, cs; }
    BracketsArePaired(text, ls, ts, opening);
    if ts[opening].pair.None? { return None, cs; }
    OpeningIsPaired(text, ls, ts, opening);
    if ts[opening].pair.value < opening { return Some([]), cs; }
    var g := Heads(text, ts, ls);
    out, cs := Arguments(g, ts, opening);
  }

  /** The first characters of the tokens. */
  method Heads(text: Text, ts: seq<Token>, ghost ls: seq<Lexeme>) returns (g: seq<char>)
    requires IsDocument(text, ls, ts)
    ensures g == Glyphs(text, Solid(ls))
  {
    hide IsDocument;
    assert |ts| == |Solid(ls)| by { Rows(text, ls, ts); }
    g := [];
    for k := 0 to |ts|
      invariant g == Glyphs(text, Solid(ls))[..k]
    {
      TokenIsLexeme(text, ls, ts, k);
      g := g + [text[ts[k].begin]];
    }
  }

  lemma Rows(text: Text, ls: seq<Lexeme>, ts: seq<Token>)
    requires IsDocument(text, ls, ts)
    ensures |ts| == |Solid(ls)|
  {
  }
}
