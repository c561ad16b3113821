/** Profile markers: an export that shows a hierarchy by indentation, joined with an export that names every
    range by its slash-separated path. */
module ProfileMarkers {
  import opened Prelude

  const DEPTH := 32
  const COMPONENT_BYTES := 256
  const PATH_BYTES := 4096
  const ROWS := 4096
  const STEP := 8

  datatype EventRow = EventRow(text: string, timed: bool)
  datatype RegimeRow = RegimeRow(text: string, shaped: bool)

  datatype Status = Unsupported | Unavailable | Available

  datatype Association = Association(
    path: seq<string>, flat: string, eventMatches: nat, regimeMatches: nat, regimeRow: Option<nat>)

  datatype Table = Table(status: Status, rows: seq<Association>)

  // ----- Labels -----

  function Spaces(n: nat): (r: string)
    ensures |r| == n && forall i :: 0 <= i < n ==> r[i] == ' '
  {
    seq(n, i => ' ')
  }

  /** Number of leading spaces. */
  function Indent(s: string): (n: nat)
    ensures n <= |s| && (forall i :: 0 <= i < n ==> s[i] == ' ') && (n < |s| ==> s[n] != ' ')
  {
    if s == "" || s[0] != ' ' then 0 else 1 + Indent(s[1..])
  }

  predicate IsVisible(c: char) {
    32 as char <= c <= 126 as char && c != '/'
  }

  predicate LegalName(name: string) {
    && 0 < |name| <= COMPONENT_BYTES && name[0] != ' ' && name[|name| - 1] != ' '
    && forall i :: 0 <= i < |name| ==> IsVisible(name[i])
  }

  datatype Marker = Marker(depth: nat, name: string)

  /** How a marker is printed: eight spaces per level. */
  function Print(m: Marker): string {
    Spaces(STEP * m.depth) + m.name
  }

  function Parse(text: string): Option<Marker> {
    var n := Indent(text);
    if n == |text| || n % STEP != 0 || n / STEP >= DEPTH || !LegalName(text[n..]) then None
    else Some(Marker(n / STEP, text[n..]))
  }

  lemma ParsePrints(m: Marker)
    requires LegalName(m.name) && m.depth < DEPTH
    ensures Parse(Print(m)) == Some(m)
  {
    var s := Print(m);
    var n := STEP * m.depth;
    assert s[n] == m.name[0];
    assert forall i :: 0 <= i < n ==> s[i] == ' ';
    assert Indent(s) == n;
    assert s[n..] == m.name;
  }

  lemma PrintParses(s: string)
    requires Parse(s).Some?
    ensures Print(Parse(s).value) == s && LegalName(Parse(s).value.name) && Parse(s).value.depth < DEPTH
  {
    var n := Indent(s);
    assert STEP * (n / STEP) == n;
    assert s == Spaces(n) + s[n..];
  }

  // ----- Forests -----

  datatype Node = Node(name: string, children: seq<Node>)

  /** The markers of a forest, parents before their children. */
  function Outline(f: seq<Node>, depth: nat): seq<Marker>
    decreases f
  {
    if f == [] then []
    else [Marker(depth, f[0].name)] + Outline(f[0].children, depth + 1) + Outline(f[1..], depth)
  }

  /** The root paths of its nodes, in the same order. */
  function Paths(f: seq<Node>, above: seq<string>): seq<seq<string>>
    decreases f
  {
    if f == [] then []
    else [above + [f[0].name]] + Paths(f[0].children, above + [f[0].name]) + Paths(f[1..], above)
  }

  /** The path the indentation means, row by row: cut the previous path to the depth and append the name. */
  function Follow(ms: seq<Marker>, stack: seq<string>): Option<seq<seq<string>>>
    decreases |ms|
  {
    if ms == [] then Some([])
    else if ms[0].depth > |stack| then None
    else
      var path := stack[..ms[0].depth] + [ms[0].name];
      var rest := Follow(ms[1..], path);
      if rest.None? then None else Some([path] + rest.value)
  }

  function Last(paths: seq<seq<string>>, stack: seq<string>): seq<string> {
    if paths == [] then stack else paths[|paths| - 1]
  }

  lemma LastNone(stack: seq<string>)
    ensures Last([], stack) == stack
  {
  }

  lemma LastJoins(a: seq<seq<string>>, b: seq<seq<string>>, stack: seq<string>)
    ensures Last(a + b, stack) == Last(b, Last(a, stack))
  {
  }

  lemma LastOne(path: seq<string>, stack: seq<string>)
    ensures Last([path], stack) == path
  {
  }

  lemma FollowNone(stack: seq<string>)
    ensures Follow([], stack) == Some([])
  {
  }

  lemma FollowFirst(ms: seq<Marker>, stack: seq<string>)
    requires Follow(ms, stack).Some?
    ensures ms == [] ==> Follow(ms, stack) == Some([])
    ensures ms != [] ==>
              && ms[0].depth <= |stack|
              && var path := stack[..ms[0].depth] + [ms[0].name];
                 Follow(ms[1..], path).Some? && Follow(ms, stack).value == [path] + Follow(ms[1..], path).value
  {
  }

  lemma LastCons(path: seq<string>, rest: seq<seq<string>>, stack: seq<string>)
    ensures Last([path] + rest, stack) == Last(rest, path)
  {
  }

  lemma {:induction false} FollowJoins(a: seq<Marker>, b: seq<Marker>, stack: seq<string>)
    requires Follow(a, stack).Some? && Follow(b, Last(Follow(a, stack).value, stack)).Some?
    ensures Follow(a + b, stack) ==
            Some(Follow(a, stack).value + Follow(b, Last(Follow(a, stack).value, stack)).value)
    decreases |a|
  {
    hide Follow, Last;
    FollowFirst(a, stack);
    if a == [] {
      assert a + b == b;
      LastNone(stack);
      assert [] + Follow(b, stack).value == Follow(b, stack).value;
    } else {
      var path := stack[..a[0].depth] + [a[0].name];
      var rest := Follow(a[1..], path).value;
      LastCons(path, rest, stack);
      FollowJoins(a[1..], b, path);
      var after := Follow(b, Last(rest, path)).value;
      FollowCons(a + b, stack, a[0], a[1..] + b);
      assert [path] + (rest + after) == [path] + rest + after;
    }
  }

  lemma FollowCons(ms: seq<Marker>, stack: seq<string>, head: Marker, tail: seq<Marker>)
    requires ms != [] && ms[0] == head && ms[1..] == tail && head.depth <= |stack|
    requires Follow(tail, stack[..head.depth] + [head.name]).Some?
    ensures Follow(ms, stack) ==
            Some([stack[..head.depth] + [head.name]] + Follow(tail, stack[..head.depth] + [head.name]).value)
  {
  }

  lemma FollowOne(m: Marker, stack: seq<string>)
    requires m.depth <= |stack|
    ensures Follow([m], stack) == Some([stack[..m.depth] + [m.name]])
  {
    var path := stack[..m.depth] + [m.name];
    assert [m][1..] == [] && Follow([], path) == Some([]);
    FollowCons([m], stack, m, []);
    assert [path] + [] == [path];
  }

  /** Indentation loses nothing: following the outline of a forest gives every node its root path. */
  lemma {:induction false} OutlineFollows(f: seq<Node>, stack: seq<string>, depth: nat)
    requires depth <= |stack|
    ensures Follow(Outline(f, depth), stack) == Some(Paths(f, stack[..depth]))
    ensures f != [] ==> |Last(Paths(f, stack[..depth]), stack)| > depth
    ensures Last(Paths(f, stack[..depth]), stack)[..depth] == stack[..depth]
    decreases f
  {
    hide Follow, Last;
    FollowNone(stack);
    LastNone(stack);
    if f != [] {
      var above := stack[..depth];
      var path := above + [f[0].name];
      var head, inner, rest := [Marker(depth, f[0].name)], Outline(f[0].children, depth + 1), Outline(f[1..], depth);
      assert path[..depth + 1] == path && path[..depth] == above;
      FollowOne(head[0], stack);
      LastOne(path, stack);
      LastNone(path);
      OutlineFollows(f[0].children, path, depth + 1);
      FollowJoins(head, inner, stack);
      var within := Paths(f[0].children, path);
      var after := Last(within, path);
      LastJoins([path], within, stack);
      LastJoins([path] + within, Paths(f[1..], above), stack);
      assert after[..depth] == after[..depth + 1][..depth];
      assert |after| > depth;
      LastNone(after);
      OutlineFollows(f[1..], after, depth);
      FollowJoins(head + inner, rest, stack);
    }
  }

  // ----- Flat paths -----

  function Join(path: seq<string>): string {
    if path == [] then ""
    else if |path| == 1 then path[0]
    else Join(path[..|path| - 1]) + "/" + path[|path| - 1]
  }

  predicate Legal(path: seq<string>) {
    forall i :: 0 <= i < |path| ==> LegalName(path[i])
  }

  /** The part behind the last slash. */
  function Behind(s: string): nat {
    if s == "" || s[|s| - 1] == '/' then |s| else Behind(s[..|s| - 1])
  }

  lemma {:induction false} BehindSlash(a: string, b: string)
    requires forall i :: 0 <= i < |b| ==> b[i] != '/'
    ensures Behind(a + "/" + b) == |a| + 1
    decreases |b|
  {
    var s := a + "/" + b;
    if b == "" {
      assert s[|s| - 1] == '/';
    } else {
      assert s[..|s| - 1] == a + "/" + b[..|b| - 1];
      BehindSlash(a, b[..|b| - 1]);
    }
  }

  lemma {:induction false} NoSlash(b: string)
    requires forall i :: 0 <= i < |b| ==> b[i] != '/'
    ensures Behind(b) == 0
  {
    if b != "" { NoSlash(b[..|b| - 1]); }
  }

  lemma BehindJoin(p: seq<string>)
    requires p != [] && Legal(p)
    ensures Behind(Join(p)) == if |p| == 1 then 0 else |Join(p[..|p| - 1])| + 1
    ensures |p| > 1 ==> Join(p[..|p| - 1]) != ""
  {
    var last := p[|p| - 1];
    assert forall i :: 0 <= i < |last| ==> IsVisible(last[i]);
    if |p| == 1 {
      NoSlash(last);
    } else {
      BehindSlash(Join(p[..|p| - 1]), last);
      assert LegalName(p[..|p| - 1][0]);
      JoinNonempty(p[..|p| - 1]);
    }
  }

  lemma JoinNonempty(p: seq<string>)
    requires p != [] && p[0] != ""
    ensures Join(p) != ""
  {
  }

  /** Joining legal names with slashes loses nothing. */
  lemma {:induction false} JoinInjective(p: seq<string>, q: seq<string>)
    requires p != [] && q != [] && Legal(p) && Legal(q) && Join(p) == Join(q)
    ensures p == q
    decreases |p|
  {
    BehindJoin(p);
    BehindJoin(q);
    var s := Join(p);
    assert p == p[..|p| - 1] + [p[|p| - 1]] && q == q[..|q| - 1] + [q[|q| - 1]];
    assert s[Behind(s)..] == p[|p| - 1];
    assert s[Behind(s)..] == q[|q| - 1];
    if |p| > 1 && |q| > 1 {
      var a, b := p[..|p| - 1], q[..|q| - 1];
      assert s[..Behind(s) - 1] == Join(a);
      assert s[..Behind(s) - 1] == Join(b);
      JoinInjective(a, b);
    }
  }

  // ----- The correlation -----

  /** The path after one more row, if the row is a legal step of the hierarchy. */
  function StepFrom(above: seq<string>, e: EventRow): Option<seq<string>> {
    var m := Parse(e.text);
    if !e.timed || m.None? || m.value.depth > |above| then None
    else
      var path := above[..m.value.depth] + [m.value.name];
      if |Join(path)| > PATH_BYTES then None else Some(path)
  }

  /** The path of the row before `n`, as long as every row so far is a legal step. */
  function StackAt(events: seq<EventRow>, n: nat): Option<seq<string>>
    requires n <= |events|
  {
    if n == 0 then Some([])
    else
      var above := StackAt(events, n - 1);
      if above.None? then None else StepFrom(above.value, events[n - 1])
  }

  lemma {:induction false} StackFails(events: seq<EventRow>, m: nat, n: nat)
    requires m <= n <= |events| && StackAt(events, n).Some?
    ensures StackAt(events, m).Some?
  {
    if m < n { StackFails(events, m, n - 1); }
  }

  lemma StepLegal(above: seq<string>, e: EventRow)
    requires StepFrom(above, e).Some? && Legal(above)
    ensures Legal(StepFrom(above, e).value) && StepFrom(above, e).value != []
  {
    PrintParses(e.text);
  }

  lemma {:induction false} StackLegal(events: seq<EventRow>, n: nat)
    requires n <= |events| && StackAt(events, n).Some?
    ensures Legal(StackAt(events, n).value) && (n > 0 ==> StackAt(events, n).value != [])
  {
    if n > 0 {
      StackLegal(events, n - 1);
      StepLegal(StackAt(events, n - 1).value, events[n - 1]);
    }
  }

  function FlatAt(events: seq<EventRow>, k: nat): string
    requires k < |events| && StackAt(events, |events|).Some?
  {
    StackFails(events, k + 1, |events|);
    Join(StackAt(events, k + 1).value)
  }

  function Flats(events: seq<EventRow>): (r: seq<string>)
    requires StackAt(events, |events|).Some?
    ensures |r| == |events| && forall k :: 0 <= k < |r| ==> r[k] == FlatAt(events, k)
  {
    seq(|events|, k requires 0 <= k < |events| => FlatAt(events, k))
  }

  function Labels(regimes: seq<RegimeRow>): (r: seq<string>)
    ensures |r| == |regimes| && forall k :: 0 <= k < |r| ==> r[k] == regimes[k].text
  {
    seq(|regimes|, k requires 0 <= k < |regimes| => regimes[k].text)
  }

  function Count(texts: seq<string>, n: nat, s: string): nat
    requires n <= |texts|
  {
    if n == 0 then 0 else Count(texts, n - 1, s) + if texts[n - 1] == s then 1 else 0
  }

  /** The places of a text. */
  function Places(texts: seq<string>, n: nat, s: string): set<nat>
    requires n <= |texts|
  {
    set i | 0 <= i < n && texts[i] == s
  }

  lemma {:induction false} CountsPlaces(texts: seq<string>, n: nat, s: string)
    requires n <= |texts|
    ensures Count(texts, n, s) == |Places(texts, n, s)|
  {
    if n > 0 {
      CountsPlaces(texts, n - 1, s);
      assert Places(texts, n, s) == Places(texts, n - 1, s) + if texts[n - 1] == s then {n - 1} else {};
    }
  }

  lemma {:induction false} CountIn(texts: seq<string>, n: nat, s: string)
    requires n <= |texts|
    ensures Count(texts, n, s) > 0 <==> s in texts[..n]
  {
    if n > 0 {
      CountIn(texts, n - 1, s);
      assert texts[..n] == texts[..n - 1] + [texts[n - 1]];
    }
  }

  /** Two places with the same text make a count of two at least. */
  lemma {:induction false} CountTwice(texts: seq<string>, n: nat, i: nat, j: nat)
    requires i < j < n <= |texts| && texts[i] == texts[j]
    ensures Count(texts, n, texts[i]) >= 2
  {
    if j < n - 1 {
      CountTwice(texts, n - 1, i, j);
    } else {
      CountIn(texts, n - 1, texts[i]);
      assert texts[i] in texts[..n - 1];
    }
  }

  predicate RegimeOk(r: RegimeRow) {
    0 < |r.text| <= PATH_BYTES && r.shaped
  }

  predicate RegimesLegal(regimes: seq<RegimeRow>) {
    forall k :: 0 <= k < |regimes| ==> RegimeOk(regimes[k])
  }

  predicate WellFormed(headers: bool, events: seq<EventRow>, regimes: seq<RegimeRow>) {
    && headers && |events| <= ROWS && |regimes| <= ROWS
    && (events != [] && regimes != [] ==> RegimesLegal(regimes) && StackAt(events, |events|).Some?)
  }

  ghost predicate Confirmed(events: seq<EventRow>, regimes: seq<RegimeRow>)
    requires StackAt(events, |events|).Some?
  {
    forall k :: 0 <= k < |events| ==> FlatAt(events, k) in Labels(regimes)
  }

  predicate Shows(events: seq<EventRow>, i: nat, flat: string)
    requires i < |events|
  {
    StackAt(events, i + 1).Some? && Join(StackAt(events, i + 1).value) == flat
  }

  /** The event rows with this path, and the regime rows. */
  function EventRows(events: seq<EventRow>, flat: string): set<nat> {
    set i | 0 <= i < |events| && Shows(events, i, flat)
  }

  function RegimeRows(regimes: seq<RegimeRow>, flat: string): set<nat> {
    set i | 0 <= i < |regimes| && regimes[i].text == flat
  }

  lemma RowsAreCounted(events: seq<EventRow>, regimes: seq<RegimeRow>, flat: string)
    requires StackAt(events, |events|).Some?
    ensures Count(Flats(events), |events|, flat) == |EventRows(events, flat)|
    ensures Count(Labels(regimes), |regimes|, flat) == |RegimeRows(regimes, flat)|
  {
    hide Join;
    CountsPlaces(Flats(events), |events|, flat);
    CountsPlaces(Labels(regimes), |regimes|, flat);
    forall i | 0 <= i < |events| ensures Shows(events, i, flat) <==> Flats(events)[i] == flat { StackFails(events, i + 1, |events|); }
    assert Places(Flats(events), |events|, flat) == EventRows(events, flat);
    assert Places(Labels(regimes), |regimes|, flat) == RegimeRows(regimes, flat);
  }

  /** A row of an available table: its path, how often either export has it, and the regime row if both have it once. */
  ghost predicate RowOk(events: seq<EventRow>, regimes: seq<RegimeRow>, k: nat, a: Association)
    requires k < |events| && StackAt(events, |events|).Some?
  {
    && StackAt(events, k + 1) == Some(a.path) && a.flat == Join(a.path)
    && a.eventMatches == |EventRows(events, a.flat)| && a.regimeMatches == |RegimeRows(regimes, a.flat)|
    && (a.regimeRow.Some? <==> a.eventMatches == 1 && a.regimeMatches == 1)
    && (a.regimeRow.Some? ==> a.regimeRow.value < |regimes| && regimes[a.regimeRow.value].text == a.flat)
  }

  datatype Seen = Seen(count: nat, first: nat)

  ghost predicate Indexed(texts: seq<string>, n: nat, m: map<string, Seen>)
    requires n <= |texts|
  {
    && (forall s :: s in m <==> Count(texts, n, s) > 0)
    && (forall s :: s in m ==> m[s].count == Count(texts, n, s) && m[s].first < n && texts[m[s].first] == s)
    && forall s, k :: s in m && 0 <= k < m[s].first ==> texts[k] != s
  }

  lemma IndexNone(texts: seq<string>)
    ensures Indexed(texts, 0, map[])
  {
  }

  /** One more row: its path is counted once more, and keeps its first row. */
  lemma IndexOne(texts: seq<string>, n: nat, m: map<string, Seen>)
    requires n < |texts| && Indexed(texts, n, m)
    ensures var s := texts[n];
            Indexed(texts, n + 1, m[s := if s in m then Seen(m[s].count + 1, m[s].first) else Seen(1, n)])
  {
    var s := texts[n];
    CountIn(texts, n, s);
    if s !in m {
      forall k | 0 <= k < n ensures texts[k] != s { assert texts[k] in texts[..n]; }
    }
  }

  method IndexRegimes(regimes: seq<RegimeRow>) returns (m: Option<map<string, Seen>>)
    ensures m.Some? <==> RegimesLegal(regimes)
    ensures m.Some? ==> Indexed(Labels(regimes), |regimes|, m.value)
  {
    hide Indexed;
    var paths: map<string, Seen> := map[];
    IndexNone(Labels(regimes));
    for row := 0 to |regimes|
      invariant Indexed(Labels(regimes), row, paths) && forall k :: 0 <= k < row ==> RegimeOk(regimes[k])
    {
      var item := regimes[row];
      if item.text == "" || |item.text| > PATH_BYTES || !item.shaped { return None; }
      var seen := if item.text in paths then paths[item.text] else Seen(0, row);
      IndexOne(Labels(regimes), row, paths);
      paths := paths[item.text := Seen(seen.count + 1, seen.first)];
    }
    return Some(paths);
  }

  /** The slash-joined path, built component by component within the byte limit. */
  method Flatten(stack: seq<string>) returns (flat: Option<string>)
    requires stack != [] && Legal(stack)
    ensures flat == if |Join(stack)| <= PATH_BYTES then Some(Join(stack)) else None
  {
    var text := "";
    for i := 0 to |stack|
      invariant text == Join(stack[..i]) && |text| <= PATH_BYTES && (i > 0 ==> text != "")
    {
      assert stack[..i + 1][..i] == stack[..i] && LegalName(stack[i]);
      JoinGrows(stack, i + 1);
      if text != "" { text := text + "/"; }
      if |text| + |stack[i]| > PATH_BYTES { return None; }
      text := text + stack[i];
    }
    assert stack[..|stack|] == stack;
    return Some(text);
  }

  lemma {:induction false} JoinGrows(p: seq<string>, n: nat)
    requires n <= |p|
    ensures |Join(p[..n])| <= |Join(p)|
    decreases |p|
  {
    if n == |p| {
      assert p[..n] == p;
    } else {
      var q := p[..|p| - 1];
      assert q[..n] == p[..n];
      JoinGrows(q, n);
      assert |p| == 1 ==> q[..n] == [];
    }
  }

  method ReadRow(stack: seq<string>, item: EventRow) returns (path: Option<seq<string>>, flat: string)
    requires Legal(stack)
    ensures path == StepFrom(stack, item)
    ensures path.Some? ==> flat == Join(path.value)
  {
    flat := "";
    if !item.timed { return None, flat; }
    var spaces := Indent(item.text);
    if spaces == |item.text| || spaces % STEP != 0 || spaces / STEP >= DEPTH || spaces / STEP > |stack| { return None, flat; }
    var name := item.text[spaces..];
    if !LegalName(name) { return None, flat; }
    var next := stack[..spaces / STEP] + [name];
    var text := Flatten(next);
    if text.None? { return None, flat; }
    return Some(next), text.value;
  }

  /** The event rows read as a hierarchy. */
  method ReadHierarchy(events: seq<EventRow>) returns (rows: Option<seq<Association>>)
    ensures rows.Some? <==> StackAt(events, |events|).Some?
    ensures rows.Some? ==>
              |rows.value| == |events| &&
              forall k :: 0 <= k < |events| ==>
                            StackAt(events, k + 1) == Some(rows.value[k].path) && rows.value[k].flat == FlatAt(events, k)
  {
    hide StepFrom;
    var out: seq<Association> := [];
    var stack: seq<string> := [];
    for row := 0 to |events|
      invariant StackAt(events, row) == Some(stack) && |out| == row
      invariant forall k :: 0 <= k < row ==> StackAt(events, k + 1) == Some(out[k].path) && out[k].flat == Join(out[k].path)
    {
      if StackAt(events, |events|).Some? { StackFails(events, row + 1, |events|); }
      StackLegal(events, row);
      var path, flat := ReadRow(stack, events[row]);
      if path.None? { return None; }
      stack := path.value;
      out := out + [Association(stack, flat, 0, 0, None)];
    }
    return Some(out);
  }

  method CountPaths(rows: seq<Association>, ghost flats: seq<string>) returns (m: map<string, nat>)
    requires |rows| == |flats| && forall k :: 0 <= k < |rows| ==> rows[k].flat == flats[k]
    ensures forall s :: s in m <==> s in flats
    ensures forall s :: s in m ==> m[s] == Count(flats, |flats|, s)
  {
    m := map[];
    for row := 0 to |rows|
      invariant forall s :: s in m <==> Count(flats, row, s) > 0
      invariant forall s :: s in m ==> m[s] == Count(flats, row, s)
    {
      var flat := rows[row].flat;
      m := m[flat := (if flat in m then m[flat] else 0) + 1];
    }
    forall s ensures s in m <==> s in flats {
      CountIn(flats, |flats|, s);
      assert flats[..|flats|] == flats;
    }
  }

  /** Main result: the two exports are joined exactly when both are well formed and every event path occurs among
      the regimes; then each row carries its root path, both counts, and a regime row only if both are one. */
  method Correlate(headers: bool, events: seq<EventRow>, regimes: seq<RegimeRow>) returns (t: Table)
    ensures t.status.Unsupported? <==> !WellFormed(headers, events, regimes)
    ensures t.status.Available? <==>
            WellFormed(headers, events, regimes) && events != [] && regimes != [] && Confirmed(events, regimes)
    ensures t.status.Available? ==>
              |t.rows| == |events| && forall k :: 0 <= k < |events| ==> RowOk(events, regimes, k, t.rows[k])
    ensures !t.status.Available? ==> t.rows == []
  {
    hide StackAt, Indexed, Count;
    if |events| > ROWS || |regimes| > ROWS || !headers { return Table(Unsupported, []); }
    if events == [] || regimes == [] { return Table(Unavailable, []); }
    var index := IndexRegimes(regimes);
    if index.None? { return Table(Unsupported, []); }
    var rows := ReadHierarchy(events);
    if rows.None? { return Table(Unsupported, []); }
    var counts := CountPaths(rows.value, Flats(events));
    var missing := exists s :: s in counts && s !in index.value;
    KnownPaths(events, regimes, index.value, counts.Keys);
    if missing { return Table(Unavailable, []); }
    var out := Associate(events, regimes, rows.value, counts, index.value);
    return Table(Available, out);
  }

  lemma KnownPaths(events: seq<EventRow>, regimes: seq<RegimeRow>, index: map<string, Seen>, flats: set<string>)
    requires StackAt(events, |events|).Some? && Indexed(Labels(regimes), |regimes|, index)
    requires forall s :: s in flats <==> s in Flats(events)
    ensures Confirmed(events, regimes) <==> forall s :: s in flats ==> s in index
  {
    var labels := Labels(regimes);
    assert labels[..|labels|] == labels;
    forall s ensures s in index <==> s in labels { CountIn(labels, |labels|, s); }
    if forall s :: s in flats ==> s in index {
      forall k | 0 <= k < |events| ensures FlatAt(events, k) in labels { assert Flats(events)[k] in Flats(events); }
    }
  }

  method Associate(ghost events: seq<EventRow>, regimes: seq<RegimeRow>, rows: seq<Association>,
                   counts: map<string, nat>, index: map<string, Seen>) returns (out: seq<Association>)
    requires StackAt(events, |events|).Some? && |rows| == |events| && Indexed(Labels(regimes), |regimes|, index)
    requires forall k :: 0 <= k < |events| ==>
                           StackAt(events, k + 1) == Some(rows[k].path) && rows[k].flat == FlatAt(events, k)
    requires forall s :: s in counts <==> s in Flats(events)
    requires forall s :: s in counts ==> counts[s] == Count(Flats(events), |events|, s) && s in index
    ensures |out| == |events| && forall k :: 0 <= k < |events| ==> RowOk(events, regimes, k, out[k])
  {
    hide StackAt, Count;
    out := [];
    for row := 0 to |rows|
      invariant |out| == row && forall k :: 0 <= k < row ==> RowOk(events, regimes, k, out[k])
    {
      var a := rows[row];
      assert Flats(events)[row] in Flats(events);
      var seen := index[a.flat];
      var matches := counts[a.flat];
      var first := if matches == 1 && seen.count == 1 then Some(seen.first) else None;
      assert Labels(regimes)[seen.first] == regimes[seen.first].text;
      var b := Association(a.path, a.flat, matches, seen.count, first);
      RowsAreCounted(events, regimes, a.flat);
      assert RowOk(events, regimes, row, b);
      out := out + [b];
    }
  }

  // ----- What the association means -----

  predicate NameFits(name: string) {
    && 1 <= |name| <= 256 && name[0] != ' ' && name[|name| - 1] != ' '
    && forall c :: c in name ==> ' ' <= c <= '~' && c != '/'
  }

  /** The row is timed and the printed form of this marker, at most one level below the row before it. */
  predicate RowFits(above: seq<string>, e: EventRow, m: Marker) {
    && e.timed && m.depth < 32 && NameFits(m.name) && e.text == Spaces(8 * m.depth) + m.name
    && m.depth <= |above| && |Join(above[..m.depth] + [m.name])| <= 4096
  }

  /** The next row is refused exactly if it is the printed form of no marker that fits there. */
  lemma NextRow(events: seq<EventRow>, n: nat)
    requires n < |events|
    ensures StackAt(events, n + 1).Some? <==>
            StackAt(events, n).Some? && exists m :: RowFits(StackAt(events, n).value, events[n], m)
    ensures forall m :: StackAt(events, n).Some? && RowFits(StackAt(events, n).value, events[n], m) ==>
                          StackAt(events, n + 1) == Some(StackAt(events, n).value[..m.depth] + [m.name])
  {
    hide Join, Parse;
    if StackAt(events, n).Some? {
      var above, e := StackAt(events, n).value, events[n];
      if StackAt(events, n + 1).Some? {
        PrintParses(e.text);
        NameFitsIff(Parse(e.text).value.name);
        assert RowFits(above, e, Parse(e.text).value);
      }
      forall m | RowFits(above, e, m) ensures StackAt(events, n + 1) == Some(above[..m.depth] + [m.name]) {
        NameFitsIff(m.name);
        ParsePrints(m);
        assert e.text == Print(m);
      }
    }
  }

  lemma NameFitsIff(name: string)
    ensures NameFits(name) <==> LegalName(name)
  {
    if NameFits(name) {
      forall i | 0 <= i < |name| ensures IsVisible(name[i]) { assert name[i] in name; }
    }
  }

  /** The marker of an accepted row. */
  function MarkerAt(events: seq<EventRow>, k: nat): Marker
    requires k < |events| && StackAt(events, |events|).Some?
  {
    StackFails(events, k + 1, |events|);
    Parse(events[k].text).value
  }

  /** The rows behind `j` and before `n` are all indented to level `e` at least. */
  ghost predicate Deeper(events: seq<EventRow>, j: nat, n: nat, e: nat)
    requires n <= |events| && StackAt(events, |events|).Some?
  {
    forall i :: j < i < n ==> MarkerAt(events, i).depth >= e
  }

  /** Each prefix of the path before row `n` is the path of the latest row on its level. */
  lemma {:induction false} AncestorRow(events: seq<EventRow>, n: nat, e: nat) returns (j: nat)
    requires n <= |events| && StackAt(events, |events|).Some?
    requires StackAt(events, n).Some? && 1 <= e <= |StackAt(events, n).value|
    ensures j < n && MarkerAt(events, j).depth == e - 1 && Deeper(events, j, n, e)
    ensures StackAt(events, j + 1) == Some(StackAt(events, n).value[..e])
  {
    hide Parse, Join;
    StackFails(events, n - 1, n);
    var path := StackAt(events, n).value;
    if e == |path| {
      j := n - 1;
      assert path[..e] == path;
    } else {
      j := AncestorRow(events, n - 1, e);
      assert path[..e] == StackAt(events, n - 1).value[..e];
    }
  }

  /** The path of an accepted row ends with its name. What stands before the name is nothing on level 0, and otherwise
      the path of the parent: the latest earlier row that is one level higher, with no higher row in between. */
  lemma ParentRow(events: seq<EventRow>, k: nat) returns (j: nat)
    requires k < |events| && StackAt(events, |events|).Some? && StackAt(events, k + 1).Some?
    ensures var path, m := StackAt(events, k + 1).value, MarkerAt(events, k);
            && |path| == m.depth + 1 && path[m.depth] == m.name && events[k].text == Print(m)
            && (m.depth > 0 ==>
                  && j < k && MarkerAt(events, j).depth == m.depth - 1 && Deeper(events, j, k, m.depth)
                  && StackAt(events, j + 1) == Some(path[..m.depth]))
  {
    var path, m := StackAt(events, k + 1).value, MarkerAt(events, k);
    PrintParses(events[k].text);
    hide Parse, Print, Join;
    if m.depth > 0 {
      j := AncestorRow(events, k, m.depth);
      assert path[..m.depth] == StackAt(events, k).value[..m.depth];
    } else {
      j := 0;
    }
  }

  /** Two event rows never share a regime row, and an associated regime row carries the event's own path. */
  lemma RegimeRowsDistinct(events: seq<EventRow>, regimes: seq<RegimeRow>, i: nat, j: nat, a: Association, b: Association)
    requires StackAt(events, |events|).Some? && i < j < |events|
    requires RowOk(events, regimes, i, a) && RowOk(events, regimes, j, b) && a.regimeRow.Some? && b.regimeRow.Some?
    ensures a.regimeRow != b.regimeRow && regimes[a.regimeRow.value].text == Join(a.path)
  {
    if a.flat == b.flat {
      RowsAreCounted(events, regimes, a.flat);
      CountTwice(Flats(events), |events|, i, j);
    }
  }

  lemma {:induction false} FollowAt(ms: seq<Marker>, stack: seq<string>, k: nat)
    requires Follow(ms, stack).Some? && k < |ms|
    ensures |Follow(ms, stack).value| == |ms|
    ensures var above := if k == 0 then stack else Follow(ms, stack).value[k - 1];
            ms[k].depth <= |above| && Follow(ms, stack).value[k] == above[..ms[k].depth] + [ms[k].name]
    decreases k
  {
    var path := stack[..ms[0].depth] + [ms[0].name];
    FollowLength(ms, stack);
    if k > 0 { FollowAt(ms[1..], path, k - 1); }
  }

  lemma {:induction false} FollowLength(ms: seq<Marker>, stack: seq<string>)
    requires Follow(ms, stack).Some?
    ensures |Follow(ms, stack).value| == |ms|
    decreases |ms|
  {
    if ms != [] { FollowLength(ms[1..], stack[..ms[0].depth] + [ms[0].name]); }
  }

  /** The rows are the printed outline of the forest, with legal names, levels and path lengths. */
  ghost predicate IsPrinted(f: seq<Node>, events: seq<EventRow>) {
    var ms, paths := Outline(f, 0), Paths(f, []);
    && |events| == |ms| == |paths|
    && (forall k :: 0 <= k < |ms| ==>
          events[k] == EventRow(Print(ms[k]), true) && LegalName(ms[k].name) && ms[k].depth < DEPTH)
    && forall k :: 0 <= k < |paths| ==> |Join(paths[k])| <= PATH_BYTES
  }

  /** Round trip: reading the printed form of any forest of legal names gives every node its exact root path. */
  lemma {:induction false} ForestRoundTrips(f: seq<Node>, events: seq<EventRow>, n: nat)
    requires IsPrinted(f, events) && n <= |events|
    ensures StackAt(events, n) == Some(if n == 0 then [] else Paths(f, [])[n - 1])
  {
    hide Outline, Paths, Follow, Print, Parse, LegalName, StepFrom, Join;
    if n > 0 {
      var ms, paths := Outline(f, 0), Paths(f, []);
      ForestRoundTrips(f, events, n - 1);
      OutlineFollows(f, [], 0);
      var none: seq<string> := [];
      assert none[..0] == none;
      assert Follow(ms, []) == Some(paths);
      FollowAt(ms, [], n - 1);
      StepPrinted(if n == 1 then [] else paths[n - 2], ms[n - 1], paths[n - 1]);
    }
  }

  lemma StepPrinted(above: seq<string>, m: Marker, path: seq<string>)
    requires LegalName(m.name) && m.depth < DEPTH && m.depth <= |above|
    requires path == above[..m.depth] + [m.name] && |Join(path)| <= PATH_BYTES
    ensures StepFrom(above, EventRow(Print(m), true)) == Some(path)
  {
    ParsePrints(m);
  }
}
