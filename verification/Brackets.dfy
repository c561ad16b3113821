/** The bracket structure of a token row: which opening a closing belongs to, and the innermost brace. */
module Brackets {
  import opened Prelude

  const NESTING := 64
  const TOKENS := 500000

  datatype Token = Token(begin: nat, end: nat, line: nat, pair: Option<nat>, brace: Option<nat>, conditional: bool)

  predicate IsOpening(c: char) {
    c == '(' || c == '[' || c == '{'
  }

  predicate IsClosing(c: char) {
    c == ')' || c == ']' || c == '}'
  }

  predicate SameKind(a: char, b: char) {
    (a == '(' && b == ')') || (a == '[' && b == ']') || (a == '{' && b == '}')
  }

  /** There are three kinds of brackets, and no other character is one. */
  lemma BracketKinds(a: char, b: char)
    ensures IsOpening(a) && SameKind(a, b) <==> [a, b] == "()" || [a, b] == "[]" || [a, b] == "{}"
    ensures IsOpening(a) <==> a in "([{"
    ensures IsClosing(a) <==> a in ")]}"
  {
    var p := [a, b];
    assert p == "()" <==> p[0] == '(' && p[1] == ')';
    assert p == "[]" <==> p[0] == '[' && p[1] == ']';
    assert p == "{}" <==> p[0] == '{' && p[1] == '}';
  }

  /** Token `k` is paired with `p`, and so is `p` with it: an opening before a closing of the same kind. */
  predicate PairOk(g: seq<char>, ts: seq<Token>, k: nat, p: nat)
    requires |g| == |ts| && k < |ts|
  {
    && p < |ts| && ts[p].pair == Some(k)
    && (if k < p then SameKind(g[k], g[p]) else p < k && SameKind(g[p], g[k]))
  }

  /** Inside a matched pair everything is matched, and with partners inside. */
  predicate Inside(ts: seq<Token>, open: seq<nat>, a: nat, c: nat)
    requires a < |ts| && c < |ts| && ts[a].pair.Some?
  {
    c !in open && (ts[c].pair.Some? ==> a < ts[c].pair.value < ts[a].pair.value)
  }

  /** A token row whose openings listed in `open` are still waiting for their partner. */
  ghost predicate Matched(g: seq<char>, ts: seq<Token>, open: seq<nat>) {
    && |g| == |ts| && Increasing(open)
    && (forall s :: s in open ==> s < |ts| && IsOpening(g[s]) && ts[s].pair.None?)
    && (forall k :: 0 <= k < |ts| && ts[k].pair.Some? ==> PairOk(g, ts, k, ts[k].pair.value))
    && (forall k :: 0 <= k < |ts| && ts[k].pair.None? ==> !IsClosing(g[k]) && (IsOpening(g[k]) ==> k in open))
    && (forall a, c :: 0 <= a < c < |ts| && ts[a].pair.Some? && c < ts[a].pair.value ==> Inside(ts, open, a, c))
  }

  /** The brace `j` is open at position `k`. */
  predicate Spans(g: seq<char>, ts: seq<Token>, j: nat, k: nat)
    requires |g| == |ts| && j < |ts|
  {
    g[j] == '{' && (ts[j].pair.None? || ts[j].pair.value >= k)
  }

  /** `r` is the innermost opening brace around position `k`. */
  ghost predicate Innermost(g: seq<char>, ts: seq<Token>, k: nat, r: Option<nat>)
    requires |g| == |ts| && k <= |ts|
  {
    && (r.Some? ==> r.value < k && Spans(g, ts, r.value, k))
    && forall j :: 0 <= j < k && (r.Some? ==> r.value < j) ==> !Spans(g, ts, j, k)
  }

  ghost predicate Braced(g: seq<char>, ts: seq<Token>)
    requires |g| == |ts|
  {
    forall k :: 0 <= k < |ts| ==> Innermost(g, ts, k, ts[k].brace)
  }

  /** The state of the matcher between two tokens. */
  ghost predicate Scanned(g: seq<char>, ts: seq<Token>, open: seq<nat>, brace: Option<nat>) {
    Matched(g, ts, open) && Braced(g, ts) && Innermost(g, ts, |ts|, brace)
  }

  // ----- One more token -----

  lemma SpansSame(g: seq<char>, ts: seq<Token>, g': seq<char>, ts': seq<Token>, j: nat, k: nat)
    requires |g| == |ts| && |g'| == |ts'| && j < |ts| && j < |ts'| && g'[j] == g[j]
    requires ts'[j].pair == ts[j].pair || (ts[j].pair.None? && ts'[j].pair.Some? && ts'[j].pair.value >= k)
    ensures Spans(g, ts, j, k) <==> Spans(g', ts', j, k)
  {
  }

  lemma InnermostSame(g: seq<char>, ts: seq<Token>, g': seq<char>, ts': seq<Token>, k: nat, r: Option<nat>)
    requires |g| == |ts| && |g'| == |ts'| && k <= |ts| <= |ts'| && Innermost(g, ts, k, r)
    requires forall j :: 0 <= j < k ==>
                           g'[j] == g[j] && (ts'[j].pair == ts[j].pair ||
                                             (ts[j].pair.None? && ts'[j].pair.Some? && ts'[j].pair.value >= k))
    ensures Innermost(g', ts', k, r)
  {
    forall j | 0 <= j < k ensures Spans(g, ts, j, k) <==> Spans(g', ts', j, k) { SpansSame(g, ts, g', ts', j, k); }
  }

  lemma PlainMatched(g: seq<char>, ts: seq<Token>, open: seq<nat>, c: char, t: Token)
    requires Matched(g, ts, open) && !IsClosing(c) && t.pair.None?
    ensures Matched(g + [c], ts + [t], if IsOpening(c) then open + [|ts|] else open)
  {
    var g', ts' := g + [c], ts + [t];
    var open' := if IsOpening(c) then open + [|ts|] else open;
    forall k | 0 <= k < |ts'| && ts'[k].pair.Some? ensures PairOk(g', ts', k, ts'[k].pair.value) {
      assert PairOk(g, ts, k, ts[k].pair.value);
    }
    forall a, b | 0 <= a < b < |ts'| && ts'[a].pair.Some? && b < ts'[a].pair.value ensures Inside(ts', open', a, b) {
      assert PairOk(g, ts, a, ts[a].pair.value);
      assert Inside(ts, open, a, b);
    }
    assert forall s :: s in open' <==> s in open || (IsOpening(c) && s == |ts|);
    assert forall x :: 0 <= x < |open| ==> open[x] in open;
  }

  /** A token that closes nothing. */
  lemma AddToken(g: seq<char>, ts: seq<Token>, open: seq<nat>, brace: Option<nat>, c: char, t: Token)
    requires Scanned(g, ts, open, brace) && !IsClosing(c) && t.pair.None? && t.brace == brace
    ensures Scanned(g + [c], ts + [t], if IsOpening(c) then open + [|ts|] else open, if c == '{' then Some(|ts|) else brace)
  {
    PlainMatched(g, ts, open, c, t);
    PlainBraced(g, ts, open, brace, c, t);
  }

  lemma PlainBraced(g: seq<char>, ts: seq<Token>, open: seq<nat>, brace: Option<nat>, c: char, t: Token)
    requires Scanned(g, ts, open, brace) && !IsClosing(c) && t.pair.None? && t.brace == brace
    ensures Braced(g + [c], ts + [t]) && Innermost(g + [c], ts + [t], |ts| + 1, if c == '{' then Some(|ts|) else brace)
  {
    var g', ts', n := g + [c], ts + [t], |ts|;
    forall k | 0 <= k < |ts'| ensures Innermost(g', ts', k, ts'[k].brace) {
      InnermostSame(g, ts, g', ts', k, if k < n then ts[k].brace else brace);
    }
    var m := n + 1;
    forall j | 0 <= j < n ensures Spans(g', ts', j, m) <==> Spans(g, ts, j, n) {
      if ts[j].pair.Some? { assert PairOk(g, ts, j, ts[j].pair.value); }
    }
    assert Spans(g', ts', n, m) <==> c == '{';
  }

  /** The closing token `n` and its opening `o` find each other. */
  function Paired(ts: seq<Token>, o: nat, t: Token): seq<Token>
    requires o < |ts|
  {
    ts[o := ts[o].(pair := Some(|ts|))] + [t.(pair := Some(o))]
  }

  /** No matched pair reaches around an open bracket. */
  lemma OpenOutside(g: seq<char>, ts: seq<Token>, open: seq<nat>, a: nat, o: nat)
    requires Matched(g, ts, open) && o in open && a < |ts| && ts[a].pair.Some?
    ensures !(a < o < ts[a].pair.value)
  {
    assert a < o && o < ts[a].pair.value ==> Inside(ts, open, a, o);
  }

  lemma AllBelow(g: seq<char>, ts: seq<Token>, open: seq<nat>, j: nat)
    requires Matched(g, ts, open) && open != [] && open[|open| - 1] < j < |ts|
    ensures j !in open && (ts[j].pair.Some? ==> open[|open| - 1] < ts[j].pair.value < |ts|)
  {
    var o := open[|open| - 1];
    assert o in open;
    if ts[j].pair.Some? {
      var p := ts[j].pair.value;
      assert PairOk(g, ts, j, p);
      OpenOutside(g, ts, open, p, o);
    }
  }

  /** Which openings still wait once the last one is closed. */
  lemma CloseWaiting(open: seq<nat>, k: nat)
    requires Increasing(open) && open != []
    ensures var o, open' := open[|open| - 1], open[..|open| - 1];
            && o !in open' && (k in open' ==> k in open && k < o) && (k in open ==> k == o || k in open')
  {
    var o, open' := open[|open| - 1], open[..|open| - 1];
    if k in open {
      var i :| 0 <= i < |open| && open[i] == k;
      assert i < |open'| ==> open'[i] == k;
    }
    if k in open' {
      var i :| 0 <= i < |open'| && open'[i] == k;
      assert open[i] == k;
    }
  }

  lemma CloseNests(g: seq<char>, ts: seq<Token>, open: seq<nat>, c: char, t: Token, a: nat, b: nat)
    requires Matched(g, ts, open) && open != [] && open[|open| - 1] < |g| && SameKind(g[open[|open| - 1]], c)
    requires var ts' := Paired(ts, open[|open| - 1], t); a < b < |ts'| && ts'[a].pair.Some? && b < ts'[a].pair.value
    ensures Inside(Paired(ts, open[|open| - 1], t), open[..|open| - 1], a, b)
  {
    var o := open[|open| - 1];
    assert o in open;
    CloseWaiting(open, b);
    if a == o {
      AllBelow(g, ts, open, b);
    } else if a < |ts| {
      assert PairOk(g, ts, a, ts[a].pair.value);
      assert Inside(ts, open, a, b);
    }
  }

  lemma CloseMatched(g: seq<char>, ts: seq<Token>, open: seq<nat>, c: char, t: Token)
    requires Matched(g, ts, open) && open != [] && open[|open| - 1] < |g| && SameKind(g[open[|open| - 1]], c)
    ensures Matched(g + [c], Paired(ts, open[|open| - 1], t), open[..|open| - 1])
  {
    var o, n := open[|open| - 1], |ts|;
    assert o in open;
    var g', ts', open' := g + [c], Paired(ts, o, t), open[..|open| - 1];
    forall k | 0 <= k <= n ensures k in open' <==> k in open && k != o { CloseWaiting(open, k); }
    assert forall s :: s in open' ==> s in open;
    forall k | 0 <= k < |ts'| && ts'[k].pair.Some? ensures PairOk(g', ts', k, ts'[k].pair.value) {
      if k < n && k != o { assert PairOk(g, ts, k, ts[k].pair.value); }
    }
    forall a, b | 0 <= a < b < |ts'| && ts'[a].pair.Some? && b < ts'[a].pair.value ensures Inside(ts', open', a, b) {
      CloseNests(g, ts, open, c, t, a, b);
    }
  }

  /** A closing token of the right kind. */
  lemma CloseToken(g: seq<char>, ts: seq<Token>, open: seq<nat>, brace: Option<nat>, c: char, t: Token)
    requires Scanned(g, ts, open, brace) && open != [] && open[|open| - 1] < |g| && SameKind(g[open[|open| - 1]], c) && t.brace == brace
    ensures var o := open[|open| - 1];
            Scanned(g + [c], Paired(ts, o, t), open[..|open| - 1], if c == '}' then ts[o].brace else brace)
  {
    assert open[|open| - 1] in open;
    CloseMatched(g, ts, open, c, t);
    CloseBraced(g, ts, open, brace, c, t);
    CloseFrontier(g, ts, open, brace, c, t);
  }

  lemma CloseBraced(g: seq<char>, ts: seq<Token>, open: seq<nat>, brace: Option<nat>, c: char, t: Token)
    requires Scanned(g, ts, open, brace) && open != [] && open[|open| - 1] < |g| && ts[open[|open| - 1]].pair.None?
    requires t.brace == brace && |g| == |ts|
    ensures Braced(g + [c], Paired(ts, open[|open| - 1], t))
  {
    hide Matched;
    var o, n := open[|open| - 1], |ts|;
    var g', ts' := g + [c], Paired(ts, o, t);
    forall k | 0 <= k < |ts'| ensures Innermost(g', ts', k, ts'[k].brace) {
      InnermostSame(g, ts, g', ts', k, if k < n then ts[k].brace else brace);
    }
  }

  /** Before a position, only open braces count: every matched one has closed already. */
  lemma OpenBraces(g: seq<char>, ts: seq<Token>, open: seq<nat>, k: nat, j: nat)
    requires Matched(g, ts, open) && j < k && (k == |ts| || k in open) && j < |ts|
    ensures Spans(g, ts, j, k) <==> g[j] == '{' && ts[j].pair.None?
  {
    if ts[j].pair.Some? {
      assert PairOk(g, ts, j, ts[j].pair.value);
      if k in open { OpenOutside(g, ts, open, j, k); }
    }
  }

  /** After closing, the open braces are those that were open before, without the one closed. */
  lemma SpansBehind(g: seq<char>, ts: seq<Token>, open: seq<nat>, c: char, t: Token, j: nat)
    requires Matched(g, ts, open) && open != [] && open[|open| - 1] < |g| && SameKind(g[open[|open| - 1]], c)
    requires j <= |ts|
    ensures Spans(g + [c], Paired(ts, open[|open| - 1], t), j, |ts| + 1) <==>
            j < |ts| && j != open[|open| - 1] && g[j] == '{' && ts[j].pair.None?
  {
    if j < |ts| && ts[j].pair.Some? { assert PairOk(g, ts, j, ts[j].pair.value); }
  }

  lemma CloseFrontier(g: seq<char>, ts: seq<Token>, open: seq<nat>, brace: Option<nat>, c: char, t: Token)
    requires Scanned(g, ts, open, brace) && open != [] && open[|open| - 1] < |g| && SameKind(g[open[|open| - 1]], c)
    ensures var o := open[|open| - 1];
            Innermost(g + [c], Paired(ts, o, t), |ts| + 1, if c == '}' then ts[o].brace else brace)
  {
    var o, n := open[|open| - 1], |ts|;
    assert o in open;
    var g', ts', m := g + [c], Paired(ts, o, t), n + 1;
    var before, r := if c == '}' then o else n, if c == '}' then ts[o].brace else brace;
    assert Innermost(g, ts, before, r);
    FrontierAt(g, ts, open, before, r, c, t);
  }

  lemma FrontierAt(g: seq<char>, ts: seq<Token>, open: seq<nat>, k: nat, r: Option<nat>, c: char, t: Token)
    requires Matched(g, ts, open) && open != [] && open[|open| - 1] < |g| && SameKind(g[open[|open| - 1]], c)
    requires (k == |ts| && c != '}') || (k == open[|open| - 1] && c == '}')
    requires Innermost(g, ts, k, r)
    ensures Innermost(g + [c], Paired(ts, open[|open| - 1], t), |ts| + 1, r)
  {
    var o, m := open[|open| - 1], |ts| + 1;
    assert o in open;
    forall j | 0 <= j < m
      ensures Spans(g + [c], Paired(ts, o, t), j, m) <==> j < k && Spans(g, ts, j, k)
    {
      SpansBehind(g, ts, open, c, t, j);
      if j < k { OpenBraces(g, ts, open, k, j); }
      if o < j < |ts| { AllBelow(g, ts, open, j); }
      hide Matched;
    }
  }
}
