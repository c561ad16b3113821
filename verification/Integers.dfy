/** Integer literals of generated source: canonical decimals of at most 64 bits with an optional suffix. */
module Integers {
  import opened Prelude

  const LIMIT: nat := 0x1_0000_0000_0000_0000
  const SUFFIXES := {"", "u", "U", "l", "L", "ul", "UL", "ull", "ULL", "ll", "LL"}

  predicate AllDigits(s: string) {
    forall i :: 0 <= i < |s| ==> IsDigit(s[i])
  }

  /** The first character at or after `i` that is not a digit, or the end. */
  function DigitsEnd(s: string, i: nat): (e: nat)
    requires i <= |s|
    ensures i <= e <= |s| && (e < |s| ==> !IsDigit(s[e]))
    ensures forall k :: i <= k < e ==> IsDigit(s[k])
    decreases |s| - i
  {
    if i < |s| && IsDigit(s[i]) then DigitsEnd(s, i + 1) else i
  }

  /** What the digits are worth, before any bound. */
  function Worth(s: string): nat
    requires AllDigits(s)
  {
    if s == "" then 0 else 10 * Worth(s[..|s| - 1]) + DigitOf(s[|s| - 1])
  }

  /** A leading zero stands only for zero itself. */
  predicate Canonical(s: string) {
    s != "" && AllDigits(s) && (|s| == 1 || s[0] != '0')
  }

  function Integer(s: string): Option<nat> {
    var end := DigitsEnd(s, 0);
    var digits := s[..end];
    if s[end..] !in SUFFIXES || !Canonical(digits) || Worth(digits) >= LIMIT then None else Some(Worth(digits))
  }

  /** A literal symbol of the given kind: its name followed by a bare number. */
  predicate IsSymbol(value: string, kind: string) {
    && kind <= value
    && AllDigits(value[|kind|..])
    && Integer(value[|kind|..]).Some?
  }

  lemma {:induction false} DecimalIsCanonical(n: nat)
    ensures Canonical(Decimal(n)) && Worth(Decimal(n)) == n && (n > 0 ==> Decimal(n)[0] != '0')
  {
    if n >= 10 {
      var front := Decimal(n / 10);
      DecimalIsCanonical(n / 10);
      assert Decimal(n)[..|Decimal(n)| - 1] == front;
      assert Decimal(n)[0] == front[0];
    } else {
      assert Decimal(n)[..0] == "";
    }
  }

  lemma {:induction false} WorthIsPositive(s: string)
    requires s != "" && AllDigits(s) && s[0] != '0'
    ensures Worth(s) > 0
  {
    if |s| > 1 { WorthIsPositive(s[..|s| - 1]); }
  }

  lemma {:induction false} CanonicalIsPrinted(s: string)
    requires Canonical(s)
    ensures Decimal(Worth(s)) == s
  {
    var front, last := s[..|s| - 1], s[|s| - 1];
    if |s| == 1 {
      assert Worth(front) == 0;
    } else {
      WorthIsPositive(front);
      CanonicalIsPrinted(front);
      assert Worth(s) / 10 == Worth(front) && Worth(s) % 10 == DigitOf(last);
    }
    assert s == front + [last];
  }

  lemma {:induction false} DigitsEndIs(s: string, i: nat, e: nat)
    requires i <= e <= |s| && (e < |s| ==> !IsDigit(s[e])) && forall k :: i <= k < e ==> IsDigit(s[k])
    ensures DigitsEnd(s, i) == e
    decreases e - i
  {
    if i < e { DigitsEndIs(s, i + 1, e); }
  }

  lemma SuffixHead(x: string)
    requires x in SUFFIXES && x != ""
    ensures !IsDigit(x[0])
  {
  }

  /** A literal is read as `n` exactly when it is the printed form of a 64-bit `n` with an accepted suffix. */
  lemma IntegerReadsPrinted(s: string, n: nat)
    ensures Integer(s) == Some(n) <==> n < LIMIT && exists x :: x in SUFFIXES && s == Decimal(n) + x
  {
    if Integer(s) == Some(n) {
      var end := DigitsEnd(s, 0);
      CanonicalIsPrinted(s[..end]);
      assert s == Decimal(n) + s[end..];
    }
    forall x | x in SUFFIXES && s == Decimal(n) + x && n < LIMIT ensures Integer(s) == Some(n) {
      DecimalIsCanonical(n);
      if x != "" { SuffixHead(x); }
      DigitsEndIs(s, 0, |Decimal(n)|);
      assert s[..|Decimal(n)|] == Decimal(n) && s[|Decimal(n)|..] == x;
    }
  }

  /** Symbols are exactly a kind's name with a printed 64-bit number, so two of one kind differ only by the number. */
  lemma SymbolIsNumbered(value: string, kind: string)
    ensures IsSymbol(value, kind) <==> exists n: nat :: n < LIMIT && value == kind + Decimal(n)
  {
    if IsSymbol(value, kind) {
      var number := value[|kind|..];
      var n := Integer(number).value;
      DigitsEndIs(number, 0, |number|);
      assert number[..|number|] == number;
      CanonicalIsPrinted(number);
      assert n < LIMIT && value == kind + Decimal(n);
    }
    forall n: nat | n < LIMIT && value == kind + Decimal(n) ensures IsSymbol(value, kind) {
      DecimalIsCanonical(n);
      var number := value[|kind|..];
      assert number == Decimal(n);
      assert number == Decimal(n) + "";
      IntegerReadsPrinted(number, n);
    }
  }
}
