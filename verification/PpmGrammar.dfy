/** Which files the PPM reader accepts, stated without its scanning functions. */
module PpmGrammar {
  import opened Prelude
  import opened Ppm

  /** A comment that begins at `j` has not been ended by a line break before `i`. */
  predicate InComment(text: string, j: nat, i: nat)
    requires i <= |text|
  {
    j <= i && j < |text| && text[j] == '#' && forall k :: j <= k < i ==> text[k] != '\n'
  }

  /** White space and complete comments from `b` up to `e`. */
  ghost predicate IsGap(text: string, b: nat, e: nat) {
    && b <= e <= |text|
    && (forall i :: b <= i < e && !IsSpace(text[i]) ==> exists j: nat :: b <= j && InComment(text, j, i))
    && (forall j: nat :: b <= j < e ==> !InComment(text, j, e))
  }

  lemma {:induction false} CommentEndIs(text: string, i: nat, e: nat)
    requires i <= |text|
    ensures CommentEnd(text, i) == Some(e) <==>
            i < e <= |text| && text[e - 1] == '\n' && forall k :: i <= k < e - 1 ==> text[k] != '\n'
    ensures CommentEnd(text, i).None? <==> forall k :: i <= k < |text| ==> text[k] != '\n'
    decreases |text| - i
  {
    if i < |text| { CommentEndIs(text, i + 1, e); }
  }

  lemma GapAfterSpace(text: string, i: nat, e: nat)
    requires i < |text| && IsSpace(text[i]) && i < e
    ensures IsGap(text, i, e) <==> IsGap(text, i + 1, e)
  {
    if IsGap(text, i, e) {
      forall k | i + 1 <= k < e && !IsSpace(text[k]) ensures exists j: nat :: i + 1 <= j && InComment(text, j, k) {
        var j: nat :| i <= j && InComment(text, j, k);
        assert j != i;
      }
    }
  }

  lemma GapAfterComment(text: string, i: nat, c: nat, e: nat)
    requires i < |text| && text[i] == '#' && CommentEnd(text, i) == Some(c) && i < e
    ensures IsGap(text, i, e) <==> c <= e && IsGap(text, c, e)
  {
    CommentEndIs(text, i, c);
    if IsGap(text, i, e) {
      assert c > e ==> InComment(text, i, e);
      forall k | c <= k < e && !IsSpace(text[k]) ensures exists j: nat :: c <= j && InComment(text, j, k) {
        var j: nat :| i <= j && InComment(text, j, k);
        assert text[c - 1] == '\n';
      }
    }
    if c <= e && IsGap(text, c, e) {
      forall k | i <= k < e && !IsSpace(text[k]) ensures exists j: nat :: i <= j && InComment(text, j, k) {
        if k < c { assert InComment(text, i, k); }
      }
      assert text[c - 1] == '\n';
    }
  }

  lemma OpenComment(text: string, i: nat, e: nat)
    requires i < |text| && text[i] == '#' && CommentEnd(text, i).None? && i < e
    ensures !IsGap(text, i, e)
  {
    CommentEndIs(text, i, 0);
    if e <= |text| { assert InComment(text, i, e); }
  }

  /** A gap reaches from `b` to `e` and no further. */
  ghost predicate WholeGap(text: string, b: nat, e: nat) {
    IsGap(text, b, e) && (e < |text| ==> !IsSpace(text[e]) && text[e] != '#')
  }

  /** Skipping ends exactly behind the whole gap, if the header limit allows it. */
  lemma {:induction false} SkipIs(text: string, i: nat, e: nat)
    requires i <= |text|
    ensures Skip(text, i) == Some(e) <==> WholeGap(text, i, e) && (e > i ==> e <= HEADER_LIMIT)
    decreases |text| - i
  {
    hide IsGap;
    if i == |text| || (text[i] != '#' && !IsSpace(text[i])) {
      NoGap(text, i, e);
    } else if text[i] == '#' {
      var c := CommentEnd(text, i);
      if c.None? {
        if i < e { OpenComment(text, i, e); } else { Before(text, i, e); }
      } else {
        SkipIs(text, c.value, e);
        if i < e { GapAfterComment(text, i, c.value, e); } else { Before(text, i, e); }
        Before(text, c.value, e);
      }
    } else {
      SkipIs(text, i + 1, e);
      if i < e { GapAfterSpace(text, i, e); } else { Before(text, i, e); }
      Before(text, i + 1, e);
    }
  }

  lemma Before(text: string, i: nat, e: nat)
    ensures e < i ==> !IsGap(text, i, e)
  {
  }

  lemma NoGap(text: string, i: nat, e: nat)
    requires i <= |text| && (i < |text| ==> text[i] != '#' && !IsSpace(text[i]))
    ensures IsGap(text, i, e) <==> e == i
  {
    assert i < |text| ==> forall j: nat :: i <= j ==> !InComment(text, j, i);
  }

  // ----- Tokens -----

  /** From `i` on, a gap up to `b` and then a word up to `e`, within the limits. */
  ghost predicate IsToken(text: string, i: nat, b: nat, e: nat) {
    && IsGap(text, i, b) && b < e <= |text| && text[b] != '#' && e - b <= TOKEN_LIMIT && e <= HEADER_LIMIT
    && (forall k :: b <= k < e ==> !IsSpace(text[k])) && (e < |text| ==> IsSpace(text[e]))
  }

  lemma {:induction false} WordEndIs(text: string, i: nat, e: nat)
    requires i <= |text|
    ensures WordEnd(text, i) == e <==>
            i <= e <= |text| && (forall k :: i <= k < e ==> !IsSpace(text[k])) && (e < |text| ==> IsSpace(text[e]))
    decreases |text| - i
  {
    if i < |text| { WordEndIs(text, i + 1, e); }
  }

  /** The next token is the one word behind the next gap. */
  lemma TokenIs(text: string, i: nat, word: string, e: nat)
    requires i <= |text|
    ensures TokenAt(text, i) == Some((word, e)) <==> exists b: nat :: IsToken(text, i, b, e) && text[b..e] == word
  {
    hide IsGap, Skip, WordEnd;
    if TokenAt(text, i) == Some((word, e)) {
      var b := Skip(text, i).value;
      SkipIs(text, i, b);
      WordEndIs(text, b, e);
      assert IsToken(text, i, b, e);
    }
    if b: nat :| IsToken(text, i, b, e) && text[b..e] == word {
      Forward(text, i, b);
      SkipIs(text, i, b);
      WordEndIs(text, b, e);
    }
  }

  lemma Forward(text: string, b: nat, e: nat)
    requires IsGap(text, b, e)
    ensures b <= e <= |text|
  {
  }

  // ----- Numbers -----

  /** The printed number behind any zeros. */
  ghost predicate IsNumeral(s: string, n: nat) {
    exists zeros :: AllZeros(zeros) && s == zeros + Decimal(n)
  }

  predicate AllZeros(s: string) {
    forall i :: 0 <= i < |s| ==> s[i] == '0'
  }

  lemma {:induction false} ZeroValue(s: string)
    ensures Value(s) == Some(0) <==> AllZeros(s)
  {
    if s != "" {
      ZeroValue(s[..|s| - 1]);
      assert s == s[..|s| - 1] + [s[|s| - 1]];
    }
  }

  lemma OneDigit(s: string, d: nat)
    requires d < 10 && Value(s).Some?
    ensures Value(s + [DigitChar(d)]) == Some(Value(s).value * 10 + d)
  {
    assert (s + [DigitChar(d)])[..|s|] == s;
  }

  lemma {:induction false} NumeralValue(zeros: string, n: nat)
    requires AllZeros(zeros)
    ensures Value(zeros + Decimal(n)) == Some(n)
  {
    hide Value, AllZeros, IsDigit;
    if n < 10 {
      ZeroValue(zeros);
      OneDigit(zeros, n);
    } else {
      NumeralValue(zeros, n / 10);
      assert zeros + Decimal(n) == zeros + Decimal(n / 10) + [DigitChar(n % 10)];
      OneDigit(zeros + Decimal(n / 10), n % 10);
    }
  }

  lemma LastDigit(s: string)
    requires s != "" && Value(s).Some?
    ensures var t, n := s[..|s| - 1], Value(s).value;
            Value(t) == Some(n / 10) && s == t + [DigitChar(n % 10)]
  {
    assert s == s[..|s| - 1] + [s[|s| - 1]];
  }

  lemma {:induction false} ValueNumeral(s: string)
    requires Value(s).Some? && Value(s).value > 0
    ensures IsNumeral(s, Value(s).value)
    decreases |s|
  {
    ZeroValue(s);
    assert s != "";
    LastDigit(s);
    hide Value, AllZeros, IsDigit;
    var t, n := s[..|s| - 1], Value(s).value;
    if n < 10 {
      ZeroValue(t);
      assert s == t + Decimal(n);
    } else {
      ValueNumeral(t);
      var zeros :| AllZeros(zeros) && t == zeros + Decimal(n / 10);
      assert s == zeros + Decimal(n);
    }
  }

  /** A dimension is a number between 1 and 4096 in decimal digits, with any leading zeros. */
  lemma DimensionIs(s: string, n: nat)
    ensures Dimension(s) == Some(n) <==> 1 <= n <= SIDE_LIMIT && IsNumeral(s, n)
  {
    if Dimension(s) == Some(n) { ValueNumeral(s); }
    if zeros :| AllZeros(zeros) && s == zeros + Decimal(n) {
      NumeralValue(zeros, n);
      assert s != "";
    }
  }

  // ----- Whole files -----

  /** The four tokens end at `cuts[1]`, `cuts[3]`, `cuts[5]` and `cuts[7]` and begin at the places before these; one
      white space and the pixels follow. */
  ghost predicate IsFile(text: string, cuts: seq<nat>, image: Image) {
    && |cuts| == 8
    && IsToken(text, 0, cuts[0], cuts[1]) && text[cuts[0]..cuts[1]] == "P6"
    && IsToken(text, cuts[1], cuts[2], cuts[3]) && IsNumeral(text[cuts[2]..cuts[3]], image.width)
    && IsToken(text, cuts[3], cuts[4], cuts[5]) && IsNumeral(text[cuts[4]..cuts[5]], image.height)
    && IsToken(text, cuts[5], cuts[6], cuts[7]) && text[cuts[6]..cuts[7]] == "255"
    && cuts[7] < |text| && IsSpace(text[cuts[7]]) && text[cuts[7] + 1..] == image.rgb
    && 1 <= image.width <= SIDE_LIMIT && 1 <= image.height <= SIDE_LIMIT
    && |image.rgb| == image.width * image.height * 3
  }

  /** The reader accepts exactly the files of this form, and returns the image they show. */
  lemma DecodeIs(text: string, image: Image)
    ensures Decode(text) == Some(image) <==> exists cuts :: IsFile(text, cuts, image)
  {
    hide TokenAt, Dimension, IsToken, IsNumeral;
    if Decode(text) == Some(image) {
      var a := Token(text, 0);
      var b := Token(text, a.1);
      var c := Token(text, b.1);
      var d := Token(text, c.1);
      DimensionIs(text[b.0..b.1], image.width);
      DimensionIs(text[c.0..c.1], image.height);
      assert IsFile(text, [a.0, a.1, b.0, b.1, c.0, c.1, d.0, d.1], image);
    }
    if cuts :| IsFile(text, cuts, image) {
      Taken(text, 0, cuts[0], cuts[1]);
      Taken(text, cuts[1], cuts[2], cuts[3]);
      Taken(text, cuts[3], cuts[4], cuts[5]);
      Taken(text, cuts[5], cuts[6], cuts[7]);
      DimensionIs(text[cuts[2]..cuts[3]], image.width);
      DimensionIs(text[cuts[4]..cuts[5]], image.height);
    }
  }

  lemma Token(text: string, i: nat) returns (cut: (nat, nat))
    requires i <= |text| && TokenAt(text, i).Some?
    ensures IsToken(text, i, cut.0, cut.1) && cut.0 <= cut.1 <= |text|
    ensures TokenAt(text, i) == Some((text[cut.0..cut.1], cut.1))
  {
    hide TokenAt, IsGap;
    var word, e := TokenAt(text, i).value.0, TokenAt(text, i).value.1;
    TokenIs(text, i, word, e);
    var b: nat :| IsToken(text, i, b, e) && text[b..e] == word;
    cut := (b, e);
  }

  lemma Taken(text: string, i: nat, b: nat, e: nat)
    requires IsToken(text, i, b, e)
    ensures i <= b <= e <= |text| && TokenAt(text, i) == Some((text[b..e], e))
  {
    hide TokenAt;
    Forward(text, i, b);
    TokenIs(text, i, text[b..e], e);
  }
}
