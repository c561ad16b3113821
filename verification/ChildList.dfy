/** Two loops of the supervisor: the scanner of the kernel's list of children, and the closing of descriptors. */
module ChildList {
  import opened Prelude

  // ----- Reading the list of children -----

  const UINT_MAX := 4294967295
  const INT_MAX := 2147483647
  const MAX_PREFIX := INT_MAX / 10 - 1
  const MAX_PID := MAX_PREFIX * 10 + 9

  /** Where the scanner is: the number read so far (zero for none) and the children found. */
  datatype Scan = Scan(child: nat, found: seq<nat>)

  /** One character: a digit that cannot overflow, a separator, or an error. */
  function ScanChar(s: Scan, c: char): Option<Scan> {
    if IsDigit(c) && s.child <= MAX_PREFIX then Some(s.(child := s.child * 10 + DigitOf(c)))
    else if c == ' ' || c == '\n' then Some(if s.child == 0 then s else Scan(0, s.found + [s.child]))
    else None
  }

  function ScanText(text: string, n: nat): Option<Scan>
    requires n <= |text|
  {
    if n == 0 then Some(Scan(0, []))
    else
      var s := ScanText(text, n - 1);
      if s.None? then None else ScanChar(s.value, text[n - 1])
  }

  /** The children a complete text lists: a last number needs no separator. */
  function Listed(text: string): Option<seq<nat>> {
    var s := ScanText(text, |text|);
    if s.None? then None else Some(if s.value.child == 0 then s.value.found else s.value.found + [s.value.child])
  }

  lemma {:induction false} ScanPrefix(a: string, b: string, n: nat)
    requires n <= |a|
    ensures ScanText(a + b, n) == ScanText(a, n)
  {
    if n > 0 { ScanPrefix(a, b, n - 1); }
  }

  lemma {:induction false} ScanFails(text: string, m: nat, n: nat)
    requires m <= n <= |text| && ScanText(text, m).None?
    ensures ScanText(text, n).None?
  {
    if m < n { ScanFails(text, m, n - 1); }
  }

  lemma ScanNext(text: string, i: nat)
    requires i < |text|
    ensures ScanText(text, i + 1) == if ScanText(text, i).None? then None else ScanChar(ScanText(text, i).value, text[i])
  {
  }

  /** Whether every child was swept without an error; `fails` are the children whose sweep fails. */
  predicate AllSwept(children: seq<nat>, fails: set<nat>) {
    forall i :: 0 <= i < |children| ==> children[i] !in fails
  }

  /** One chunk to its end, or to the first character that is an error: a failed sweep does not stop it. */
  method ScanChunk(chunk: string, fails: set<nat>, child0: nat, children0: seq<nat>, ghost before: string)
    returns (ok: bool, valid: bool, child: nat, children: seq<nat>, ghost n: nat)
    requires ScanText(before, |before|) == Some(Scan(child0, children0)) && AllSwept(children0, fails)
    ensures ok ==> ScanText(before + chunk, |before + chunk|) == Some(Scan(child, children))
    ensures !ok ==> ScanText(before + chunk, |before + chunk|).None?
    ensures valid <==> AllSwept(children, fails)
    ensures n <= |before + chunk| && ScanText(before + chunk, n) == Some(Scan(child, children))
  {
    hide ScanText;
    child, children, valid := child0, children0, true;
    ghost var all := before + chunk;
    ScanPrefix(before, chunk, |before|);
    for i := 0 to |chunk|
      invariant ScanText(all, |before| + i) == Some(Scan(child, children))
      invariant valid <==> AllSwept(children, fails)
    {
      var value := chunk[i];
      assert all[|before| + i] == value;
      ScanNext(all, |before| + i);
      if IsDigit(value) && child <= MAX_PREFIX {
        child := child * 10 + DigitOf(value);
      } else if value == ' ' || value == '\n' {
        if child != 0 {
          valid := child !in fails && valid;
          SweptSnoc(children, child, fails);
          children := children + [child];
          child := 0;
        }
      } else {
        ScanFails(all, |before| + i + 1, |all|);
        return false, valid, child, children, |before| + i;
      }
    }
    ok, n := true, |all|;
  }

  lemma SweptSnoc(children: seq<nat>, child: nat, fails: set<nat>)
    ensures AllSwept(children + [child], fails) <==> AllSwept(children, fails) && child !in fails
  {
    var r := children + [child];
    assert r[|children|] == child && forall i :: 0 <= i < |children| ==> r[i] == children[i];
  }

  /** What one read gives: some of the text, an interrupted call, or an error. */
  datatype Read = Chunk(text: string) | Interrupted | Broken

  /** The text that the first `n` reads deliver. */
  function TextOf(attempts: seq<Read>, n: nat): string
    requires n <= |attempts|
  {
    if n == 0 then ""
    else TextOf(attempts, n - 1) + if attempts[n - 1].Chunk? then attempts[n - 1].text else ""
  }

  /** The children that some beginning of the text lists, in order; at the end a number needs no separator. */
  ghost predicate FoundIn(text: string, children: seq<nat>) {
    Listed(text) == Some(children) || exists n: nat :: FoundBy(text, n, children)
  }

  ghost predicate FoundBy(text: string, n: nat, children: seq<nat>) {
    n <= |text| && ScanText(text, n).Some? && ScanText(text, n).value.found == children
  }

  /** Scans the list read by read and sweeps each child: valid exactly if no read fails, the whole text is a list,
      and no child's sweep fails; and then all listed children are swept. A number may be split anywhere. After a
      failure no more is read, and only listed children have been swept. */
  method ScanChildren(attempts: seq<Read>, fails: set<nat>) returns (valid: bool, swept: seq<nat>)
    ensures var text := TextOf(attempts, |attempts|);
            valid <==> && (forall i :: 0 <= i < |attempts| ==> !attempts[i].Broken?)
                       && Listed(text).Some? && AllSwept(Listed(text).value, fails)
    ensures valid ==> Listed(TextOf(attempts, |attempts|)) == Some(swept)
    ensures FoundIn(TextOf(attempts, |attempts|), swept)
  {
    hide ScanText, ScanChar, AllSwept, FoundIn, Listed, TextOf;
    var child: nat := 0;
    swept := [];
    NothingScanned(attempts, fails);
    for n := 0 to |attempts|
      invariant ScanText(TextOf(attempts, n), |TextOf(attempts, n)|) == Some(Scan(child, swept)) && AllSwept(swept, fails)
      invariant forall i :: 0 <= i < n ==> !attempts[i].Broken?
    {
      OneRead(attempts, n);
      match attempts[n] {
        case Interrupted =>
        case Broken =>
          Found(attempts, n, |TextOf(attempts, n)|, child, swept);
          return false, swept;
        case Chunk(text) =>
          var ok, clean;
          ghost var k;
          ok, clean, child, swept, k := ScanChunk(text, fails, child, swept, TextOf(attempts, n));
          Found(attempts, n + 1, k, child, swept);
          if !ok { TextFails(attempts, n, |TextOf(attempts, n + 1)|); }
          if ok && !clean { FoundStays(attempts, n + 1, child, swept, fails); }
          if !ok || !clean { return false, swept; }
      }
    }
    valid := child == 0 || child !in fails;
    LastChild(TextOf(attempts, |attempts|), child, swept, fails);
    if child != 0 { swept := swept + [child]; }
  }

  lemma LastChild(text: string, child: nat, swept: seq<nat>, fails: set<nat>)
    requires ScanText(text, |text|) == Some(Scan(child, swept)) && AllSwept(swept, fails)
    ensures var all := if child == 0 then swept else swept + [child];
            && Listed(text) == Some(all) && FoundIn(text, all)
            && (AllSwept(all, fails) <==> child == 0 || child !in fails)
  {
    hide ScanText;
    SweptSnoc(swept, child, fails);
  }

  lemma OneRead(attempts: seq<Read>, n: nat)
    requires n < |attempts|
    ensures TextOf(attempts, n + 1) == TextOf(attempts, n) + if attempts[n].Chunk? then attempts[n].text else ""
    ensures !attempts[n].Chunk? ==> TextOf(attempts, n + 1) == TextOf(attempts, n)
  {
  }

  lemma NothingScanned(attempts: seq<Read>, fails: set<nat>)
    ensures ScanText(TextOf(attempts, 0), |TextOf(attempts, 0)|) == Some(Scan(0, [])) && AllSwept([], fails)
  {
  }

  lemma {:induction false} TextPrefix(attempts: seq<Read>, m: nat, n: nat)
    requires m <= n <= |attempts|
    ensures TextOf(attempts, m) <= TextOf(attempts, n)
  {
    if m < n { TextPrefix(attempts, m, n - 1); }
  }

  /** What a scan has found part-way it has found in the whole text. */
  lemma Found(attempts: seq<Read>, n: nat, k: nat, child: nat, swept: seq<nat>)
    requires n <= |attempts| && k <= |TextOf(attempts, n)| && ScanText(TextOf(attempts, n), k) == Some(Scan(child, swept))
    ensures FoundIn(TextOf(attempts, |attempts|), swept)
  {
    var a, all := TextOf(attempts, n), TextOf(attempts, |attempts|);
    TextPrefix(attempts, n, |attempts|);
    assert all == a + all[|a|..];
    ScanPrefix(a, all[|a|..], k);
    assert FoundBy(all, k, swept);
  }

  lemma TextFails(attempts: seq<Read>, n: nat, i: nat)
    requires n < |attempts| && i <= |TextOf(attempts, n + 1)| && ScanText(TextOf(attempts, n + 1), i).None?
    ensures Listed(TextOf(attempts, |attempts|)).None?
  {
    var a, all := TextOf(attempts, n + 1), TextOf(attempts, |attempts|);
    TextPrefix(attempts, n + 1, |attempts|);
    assert all == a + all[|a|..];
    ScanPrefix(a, all[|a|..], i);
    ScanFails(all, i, |all|);
  }

  lemma {:induction false} FoundGrows(text: string, m: nat, n: nat)
    requires m <= n <= |text| && ScanText(text, n).Some?
    ensures ScanText(text, m).Some? && ScanText(text, m).value.found <= ScanText(text, n).value.found
  {
    if m < n { FoundGrows(text, m, n - 1); }
  }

  /** A child whose sweep failed is listed by the whole text, if that is a list at all. */
  lemma FoundStays(attempts: seq<Read>, n: nat, child: nat, swept: seq<nat>, fails: set<nat>)
    requires n <= |attempts| && ScanText(TextOf(attempts, n), |TextOf(attempts, n)|) == Some(Scan(child, swept))
    requires !AllSwept(swept, fails)
    ensures Listed(TextOf(attempts, |attempts|)).Some? ==> !AllSwept(Listed(TextOf(attempts, |attempts|)).value, fails)
  {
    var a, all := TextOf(attempts, n), TextOf(attempts, |attempts|);
    TextPrefix(attempts, n, |attempts|);
    assert all == a + all[|a|..];
    ScanPrefix(a, all[|a|..], |a|);
    if ScanText(all, |all|).Some? {
      FoundGrows(all, |a|, |all|);
      var i :| 0 <= i < |swept| && swept[i] in fails;
      assert swept <= Listed(all).value;
      assert Listed(all).value[i] == swept[i];
    }
  }

  // ----- What a list of children prints as -----

  function PrintChildren(pids: seq<nat>, n: nat): string
    requires n <= |pids|
  {
    if n == 0 then "" else PrintChildren(pids, n - 1) + Decimal(pids[n - 1]) + " "
  }

  lemma ScanOne(a: string, c: char, s: Scan)
    requires ScanText(a, |a|) == Some(s)
    ensures ScanText(a + [c], |a| + 1) == ScanChar(s, c)
  {
    ScanPrefix(a, [c], |a|);
  }

  /** The digits of a number that does not overflow are read back as that number. */
  lemma {:induction false} DecimalScans(a: string, s: Scan, n: nat)
    requires ScanText(a, |a|) == Some(s) && s.child == 0 && n <= MAX_PID
    ensures ScanText(a + Decimal(n), |a + Decimal(n)|) == Some(s.(child := n))
  {
    hide ScanText;
    if n < 10 {
      ScanOne(a, Decimal(n)[0], s);
      assert a + Decimal(n) == a + [Decimal(n)[0]];
    } else {
      DecimalScans(a, s, n / 10);
      var b := a + Decimal(n / 10);
      ScanOne(b, DigitChar(n % 10), s.(child := n / 10));
      assert a + Decimal(n) == b + [DigitChar(n % 10)];
    }
  }

  lemma PidScans(a: string, found: seq<nat>, pid: nat)
    requires ScanText(a, |a|) == Some(Scan(0, found)) && 0 < pid <= MAX_PID
    ensures ScanText(a + Decimal(pid) + " ", |a + Decimal(pid) + " "|) == Some(Scan(0, found + [pid]))
  {
    hide ScanText, Decimal;
    DecimalScans(a, Scan(0, found), pid);
    ScanOne(a + Decimal(pid), ' ', Scan(pid, found));
  }

  lemma {:induction false} PrintScans(pids: seq<nat>, n: nat)
    requires n <= |pids| && forall i :: 0 <= i < n ==> 0 < pids[i] <= MAX_PID
    ensures ScanText(PrintChildren(pids, n), |PrintChildren(pids, n)|) == Some(Scan(0, pids[..n]))
  {
    if n > 0 {
      PrintScans(pids, n - 1);
      var a := PrintChildren(pids, n - 1);
      PidScans(a, pids[..n - 1], pids[n - 1]);
      assert pids[..n] == pids[..n - 1] + [pids[n - 1]];
    }
  }

  lemma {:induction false} PrintPrefix(pids: seq<nat>, m: nat, n: nat)
    requires m <= n <= |pids|
    ensures PrintChildren(pids, m) <= PrintChildren(pids, n)
  {
    if m < n { PrintPrefix(pids, m, n - 1); }
  }

  /** A number above the guard is an error: its last digit is refused. */
  lemma TooLong(a: string, found: seq<nat>, pid: nat)
    requires ScanText(a, |a|) == Some(Scan(0, found)) && MAX_PID < pid <= INT_MAX
    ensures ScanText(a + Decimal(pid), |a + Decimal(pid)|).None?
  {
    hide ScanText;
    var head, last := pid / 10, DigitChar(pid % 10);
    assert head == MAX_PREFIX + 1;
    DecimalScans(a, Scan(0, found), head);
    ScanOne(a + Decimal(head), last, Scan(head, found));
    assert a + Decimal(pid) == a + Decimal(head) + [last];
  }

  lemma AllListed(pids: seq<nat>)
    requires ScanText(PrintChildren(pids, |pids|), |PrintChildren(pids, |pids|)|) == Some(Scan(0, pids))
    ensures Listed(PrintChildren(pids, |pids|)) == Some(pids)
  {
  }

  lemma ListFails(pids: seq<nat>, n: nat)
    requires n < |pids| && MAX_PID < pids[n] <= INT_MAX
    requires ScanText(PrintChildren(pids, n), |PrintChildren(pids, n)|) == Some(Scan(0, pids[..n]))
    ensures Listed(PrintChildren(pids, |pids|)).None?
  {
    hide ScanText, Decimal;
    var a, all := PrintChildren(pids, n) + Decimal(pids[n]), PrintChildren(pids, |pids|);
    TooLong(PrintChildren(pids, n), pids[..n], pids[n]);
    PrintPrefix(pids, n + 1, |pids|);
    assert PrintChildren(pids, n + 1) == a + " ";
    assert all == a + all[|a|..];
    ScanPrefix(a, all[|a|..], |a|);
    ScanFails(all, |a|, |all|);
  }

  /** Round trip: the printed list of any process numbers that fit the type is read back exactly, if and only if
      none exceeds the guard; otherwise the whole list is an error. Linux numbers processes below 2^22, so the
      guard never refuses what the kernel prints. */
  lemma ChildrenRoundTrip(pids: seq<nat>)
    requires forall i :: 0 <= i < |pids| ==> 0 < pids[i] <= INT_MAX
    ensures Listed(PrintChildren(pids, |pids|)) ==
            if forall i :: 0 <= i < |pids| ==> pids[i] <= MAX_PID then Some(pids) else None
  {
    hide ScanText, Decimal, PrintChildren;
    var n := 0;
    while n < |pids| && pids[n] <= MAX_PID
      invariant n <= |pids| && forall i :: 0 <= i < n ==> pids[i] <= MAX_PID
    {
      n := n + 1;
    }
    PrintScans(pids, n);
    if n == |pids| {
      assert pids[..n] == pids;
      AllListed(pids);
    } else {
      ListFails(pids, n);
    }
  }

  /** Any spaces and line breaks. */
  predicate IsGap(s: string) {
    forall i :: 0 <= i < |s| ==> s[i] == ' ' || s[i] == '\n'
  }

  predicate IsZeros(s: string) {
    forall i :: 0 <= i < |s| ==> s[i] == '0'
  }

  /** A number as it may stand in a list: behind a gap, with any leading zeros. */
  datatype Item = Item(gap: string, zeros: string, pid: nat)

  predicate ItemOk(x: Item) {
    x.gap != "" && IsGap(x.gap) && IsZeros(x.zeros) && 0 < x.pid <= MAX_PID
  }

  function Written(items: seq<Item>, n: nat): string
    requires n <= |items|
  {
    if n == 0 then "" else Written(items, n - 1) + items[n - 1].gap + items[n - 1].zeros + Decimal(items[n - 1].pid)
  }

  function Pids(items: seq<Item>): (r: seq<nat>)
    ensures |r| == |items| && forall k :: 0 <= k < |r| ==> r[k] == items[k].pid
  {
    seq(|items|, k requires 0 <= k < |items| => items[k].pid)
  }

  /** The number, if one was read, is complete. */
  function Closed(s: Scan): seq<nat> {
    if s.child == 0 then s.found else s.found + [s.child]
  }

  lemma {:induction false} GapScans(a: string, s: Scan, gap: string)
    requires ScanText(a, |a|) == Some(s) && IsGap(gap)
    ensures gap != "" ==> ScanText(a + gap, |a + gap|) == Some(Scan(0, Closed(s)))
    decreases |gap|
  {
    hide ScanText;
    if gap != "" {
      var g, c := gap[..|gap| - 1], gap[|gap| - 1];
      GapScans(a, s, g);
      assert g == "" ==> a + g == a;
      ScanOne(a + g, c, if g == "" then s else Scan(0, Closed(s)));
      assert a + gap == a + g + [c];
    }
  }

  lemma {:induction false} ZerosScan(a: string, s: Scan, zeros: string)
    requires ScanText(a, |a|) == Some(s) && s.child == 0 && IsZeros(zeros)
    ensures ScanText(a + zeros, |a + zeros|) == Some(s)
    decreases |zeros|
  {
    hide ScanText;
    if zeros == "" {
      assert a + zeros == a;
    } else {
      var z := zeros[..|zeros| - 1];
      ZerosScan(a, s, z);
      ScanOne(a + z, '0', s);
      assert a + zeros == a + z + "0";
    }
  }

  lemma {:induction false} WrittenScans(items: seq<Item>, n: nat)
    requires n <= |items| && forall k :: 0 <= k < n ==> ItemOk(items[k])
    ensures ScanText(Written(items, n), |Written(items, n)|).Some?
    ensures Closed(ScanText(Written(items, n), |Written(items, n)|).value) == Pids(items)[..n]
  {
    hide ScanText, Decimal, IsGap, IsZeros;
    if n == 0 {
      NothingRead();
    } else {
      WrittenScans(items, n - 1);
      var a, x := Written(items, n - 1), items[n - 1];
      var s := ScanText(a, |a|).value;
      GapScans(a, s, x.gap);
      ZerosScan(a + x.gap, Scan(0, Closed(s)), x.zeros);
      DecimalScans(a + x.gap + x.zeros, Scan(0, Closed(s)), x.pid);
      assert Pids(items)[..n] == Pids(items)[..n - 1] + [x.pid];
    }
  }

  lemma NothingRead()
    ensures ScanText("", 0) == Some(Scan(0, []))
  {
  }

  /** Spaces, line breaks and leading zeros do not matter, and the last number needs no separator. */
  lemma WrittenIsListed(items: seq<Item>, tail: string)
    requires (forall k :: 0 <= k < |items| ==> ItemOk(items[k])) && IsGap(tail)
    ensures Listed(Written(items, |items|) + tail) == Some(Pids(items))
  {
    var text := Written(items, |items|);
    WrittenScans(items, |items|);
    GapScans(text, ScanText(text, |text|).value, tail);
    assert Pids(items)[..|items|] == Pids(items);
    assert tail == "" ==> text + tail == text;
  }

  /** A character that is neither a digit nor a separator makes the whole list an error. */
  lemma StrangeIsRefused(text: string, i: nat)
    requires i < |text| && !IsDigit(text[i]) && text[i] != ' ' && text[i] != '\n'
    ensures Listed(text).None?
  {
    ScanNext(text, i);
    ScanFails(text, i + 1, |text|);
  }

  // ----- Closing descriptors -----

  const FIRST := 3

  predicate IsClosed(ranges: seq<(nat, nat)>, fd: int) {
    exists i :: 0 <= i < |ranges| && ranges[i].0 <= fd <= ranges[i].1
  }

  lemma ClosedSnoc(ranges: seq<(nat, nat)>, r: (nat, nat), fd: int)
    ensures IsClosed(ranges + [r], fd) <==> IsClosed(ranges, fd) || r.0 <= fd <= r.1
  {
    var s := ranges + [r];
    assert s[|ranges|] == r;
    if i :| 0 <= i < |ranges| && ranges[i].0 <= fd <= ranges[i].1 { assert s[i] == ranges[i]; }
  }

  /** A call closes the gap before the i-th kept descriptor, if there is one, and a last one all above the kept ones. */
  predicate Called(keep: seq<nat>, i: nat) {
    i == |keep| || (i < |keep| && (if i == 0 then FIRST else keep[i - 1] + 1) < keep[i])
  }

  /** Closes every descriptor but the standard ones and the ones to keep, which come sorted. `fails` says which of
      the calls fail; `ranges` are the ranges closed. */
  method CloseExcept(keep: seq<nat>, fails: set<nat>) returns (ok: bool, ranges: seq<(nat, nat)>)
    requires forall i :: 0 <= i < |keep| ==> FIRST <= keep[i] <= INT_MAX
    requires forall i, j :: 0 <= i < j < |keep| ==> keep[i] <= keep[j]
    ensures forall fd :: IsClosed(ranges, fd) ==> FIRST <= fd <= UINT_MAX && fd !in keep
    ensures ok ==> forall fd :: FIRST <= fd <= UINT_MAX && fd !in keep ==> IsClosed(ranges, fd)
    ensures ok <==> forall i :: 0 <= i <= |keep| && Called(keep, i) ==> i !in fails
  {
    var first := FIRST;
    ranges := [];
    for index := 0 to |keep|
      invariant FIRST <= first <= INT_MAX + 1 && forall i :: index <= i < |keep| ==> first <= keep[i] + 1
      invariant first == if index == 0 then FIRST else keep[index - 1] + 1
      invariant forall i :: 0 <= i < index ==> keep[i] < first
      invariant forall i :: 0 <= i < index && Called(keep, i) ==> i !in fails
      invariant forall fd :: IsClosed(ranges, fd) <==> FIRST <= fd < first && fd !in keep
    {
      var next := keep[index];
      ghost var before := ranges;
      if first < next {
        assert Called(keep, index);
        if index in fails { return false, ranges; }
        ranges := ranges + [(first, next - 1)];
      }
      forall fd ensures IsClosed(ranges, fd) <==> FIRST <= fd < next + 1 && fd !in keep {
        assert IsClosed(before, fd) <==> FIRST <= fd < first && fd !in keep;
        if first < next { ClosedSnoc(before, (first, next - 1), fd); }
        assert first <= fd < next + 1 ==> (fd in keep <==> fd == next);
      }
      first := next + 1;
    }
    assert Called(keep, |keep|);
    if |keep| in fails { return false, ranges; }
    forall fd ensures IsClosed(ranges + [(first, UINT_MAX)], fd) <==> IsClosed(ranges, fd) || first <= fd <= UINT_MAX {
      ClosedSnoc(ranges, (first, UINT_MAX), fd);
    }
    return true, ranges + [(first, UINT_MAX)];
  }
}
