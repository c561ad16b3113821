/** GPU timestamps that wrap around: durations of a scene and of the draws inside it. */
module Timing {
  import opened Prelude

  function Power(n: nat): (r: nat)
    ensures r > 0
  {
    if n == 0 then 1 else 2 * Power(n - 1)
  }

  /** 64-bit unsigned subtraction followed by masking to the counter's width. */
  function Masked(a: nat, b: nat, bits: nat): (r: nat)
    requires 0 < bits <= 64
    ensures r < Power(bits)
  {
    ((a - b) % Power(64)) % Power(bits)
  }

  lemma {:induction false} PowerSplits(m: nat, n: nat)
    requires m <= n
    ensures Power(n) == Power(m) * Power(n - m)
  {
    if m < n { PowerSplits(m, n - 1); }
  }

  lemma Distribute(m: int, a: int, b: int)
    ensures m * (a - b) == m * a - m * b
  {
  }

  lemma AtLeast(m: nat, k: nat)
    requires k > 0
    ensures m * k >= m
  {
    Distribute(m, k, 1);
  }

  /** Quotient and remainder are unique. */
  lemma Unique(x: int, m: nat, q: int, r: int)
    requires m > 0 && x == m * q + r && 0 <= r < m
    ensures x % m == r
  {
    var p := x / m;
    assert x == m * p + x % m;
    Distribute(m, q, p);
    Distribute(m, p, q);
    if q > p { AtLeast(m, q - p); }
    if q < p { AtLeast(m, p - q); }
  }

  lemma AddMultiple(r: int, m: nat, q: int)
    requires m > 0
    ensures (m * q + r) % m == r % m
  {
    assert r == m * (r / m) + r % m;
    Distribute(m, q + r / m, r / m);
    Unique(m * q + r, m, q + r / m, r % m);
  }

  lemma Regroup(m: nat, k: nat, q: int)
    ensures (m * k) * q == m * (k * q)
  {
  }

  lemma ModOfMod(x: int, m: nat, k: nat)
    requires m > 0 && k > 0 && m * k > 0
    ensures (x % (m * k)) % m == x % m
  {
    var n := m * k;
    var q, r := x / n, x % n;
    assert x == n * q + r;
    Regroup(m, k, q);
    AddMultiple(r, m, k * q);
  }

  lemma DifferenceOfRemainders(a: int, b: int, m: nat)
    requires m > 0 && 0 <= a - b < m
    ensures (a % m - b % m) % m == a - b
  {
    var p, q := a / m, b / m;
    assert a == m * p + a % m && b == m * q + b % m;
    Distribute(m, q, p);
    Unique(a % m - b % m, m, q - p, a - b);
  }

  lemma RemainderOfDifference(a: int, b: int, m: nat)
    requires m > 0 && b % m <= a % m
    ensures (a - b) % m == a % m - b % m
  {
    var p, q := a / m, b / m;
    assert a == m * p + a % m && b == m * q + b % m;
    Distribute(m, p, q);
    Unique(a - b, m, p - q, a % m - b % m);
  }

  /** Masking is subtraction modulo the counter's range. */
  lemma MaskedIsModulo(a: nat, b: nat, bits: nat)
    requires 0 < bits <= 64
    ensures Masked(a, b, bits) == (a - b) % Power(bits)
  {
    PowerSplits(bits, 64);
    hide Power;
    ModOfMod(a - b, Power(bits), Power(64 - bits));
  }

  /** Whatever the wraparound: read at two times less than one turn apart, the difference is the elapsed time. */
  lemma WrapIsHarmless(earlier: nat, later: nat, bits: nat)
    requires 0 < bits <= 64 && earlier <= later < earlier + Power(bits)
    ensures Masked(later % Power(bits), earlier % Power(bits), bits) == later - earlier
  {
    hide Power, Masked;
    var m := Power(bits);
    MaskedIsModulo(later % m, earlier % m, bits);
    DifferenceOfRemainders(later, earlier, m);
  }

  /** Two offsets from one start determine the time between them. */
  lemma OffsetsSubtract(start: nat, begin: nat, end: nat, bits: nat)
    requires 0 < bits <= 64 && Masked(begin, start, bits) <= Masked(end, start, bits)
    ensures Masked(end, begin, bits) == Masked(end, start, bits) - Masked(begin, start, bits)
  {
    hide Power, Masked;
    MaskedIsModulo(begin, start, bits);
    MaskedIsModulo(end, start, bits);
    MaskedIsModulo(end, begin, bits);
    RemainderOfDifference(end - start, begin - start, Power(bits));
  }

  // ----- The collection -----

  datatype Draw = Draw(begin: nat, end: nat, elapsed: nat)

  /** Offsets of the i-th draw from the start of the scene. */
  function From(ts: seq<nat>, i: nat, bits: nat): nat
    requires 0 < bits <= 64 && 3 + 2 * i < |ts|
  {
    Masked(ts[2 + 2 * i], ts[0], bits)
  }

  function Until(ts: seq<nat>, i: nat, bits: nat): nat
    requires 0 < bits <= 64 && 3 + 2 * i < |ts|
  {
    Masked(ts[3 + 2 * i], ts[0], bits)
  }

  /** The i-th draw lies behind the one before it and inside the scene. */
  predicate InScene(ts: seq<nat>, i: nat, bits: nat)
    requires 0 < bits <= 64 && 3 + 2 * i < |ts|
  {
    && (if i == 0 then 0 else Until(ts, i - 1, bits)) <= From(ts, i, bits) <= Until(ts, i, bits)
    && Until(ts, i, bits) <= Masked(ts[1], ts[0], bits)
  }

  predicate Acceptable(ts: seq<nat>, draws: nat, bits: nat)
    requires 0 < bits <= 64 && |ts| == 2 + 2 * draws
  {
    && (forall k :: 0 <= k < |ts| ==> ts[k] < Power(bits))
    && Masked(ts[1], ts[0], bits) > 0
    && forall i :: 0 <= i < draws ==> InScene(ts, i, bits)
  }

  /** Checks and measures the draws of one scene; `ts` holds its two timestamps and two for each draw. */
  method CollectTiming(ts: seq<nat>, draws: nat, bits: nat) returns (ticks: nat, r: Option<seq<Draw>>)
    requires 0 < bits <= 64 && |ts| == 2 + 2 * draws
    ensures r.Some? <==> Acceptable(ts, draws, bits)
    ensures r.Some? ==>
              && ticks == Masked(ts[1], ts[0], bits) && |r.value| == draws
              && forall i :: 0 <= i < draws ==>
                   && r.value[i].begin == ts[2 + 2 * i] && r.value[i].end == ts[3 + 2 * i]
                   && r.value[i].elapsed == Until(ts, i, bits) - From(ts, i, bits)
  {
    hide Masked, Power;
    var mask := Power(bits) - 1;
    ticks := 0;
    for i := 0 to |ts|
      invariant forall k :: 0 <= k < i ==> ts[k] < Power(bits)
    {
      if ts[i] > mask { return 0, None; }
    }
    ticks := Masked(ts[1], ts[0], bits);
    if ticks == 0 { return ticks, None; }
    var out: seq<Draw> := [];
    var previousEnd := 0;
    for i := 0 to draws
      invariant |out| == i && previousEnd == (if i == 0 then 0 else Until(ts, i - 1, bits))
      invariant forall k :: 0 <= k < i ==> InScene(ts, k, bits)
      invariant forall k :: 0 <= k < i ==>
                  && out[k].begin == ts[2 + 2 * k] && out[k].end == ts[3 + 2 * k]
                  && out[k].elapsed == Until(ts, k, bits) - From(ts, k, bits)
    {
      var begin, end := ts[2 + 2 * i], ts[3 + 2 * i];
      var fromScene, untilScene := Masked(begin, ts[0], bits), Masked(end, ts[0], bits);
      if fromScene < previousEnd || untilScene < fromScene || untilScene > ticks {
        assert !InScene(ts, i, bits);
        return ticks, None;
      }
      OffsetsSubtract(ts[0], begin, end, bits);
      out := out + [Draw(begin, end, Masked(end, begin, bits))];
      previousEnd := untilScene;
    }
    r := Some(out);
  }

  function Total(draws: seq<Draw>, n: nat): nat
    requires n <= |draws|
  {
    if n == 0 then 0 else Total(draws, n - 1) + draws[n - 1].elapsed
  }

  /** Ticks of the scene before the first draw and between draws. */
  function Gaps(ts: seq<nat>, bits: nat, n: nat): int
    requires 0 < bits <= 64 && 2 + 2 * n <= |ts|
  {
    if n == 0 then 0
    else Gaps(ts, bits, n - 1) + From(ts, n - 1, bits) - if n == 1 then 0 else Until(ts, n - 2, bits)
  }

  /** Draw intervals do not overlap: their ticks and the gaps add up to the offset of the last end, so they come to no
      more than the scene's ticks. */
  lemma {:induction false} TicksAddUp(ts: seq<nat>, draws: seq<Draw>, bits: nat, n: nat)
    requires 0 < bits <= 64 && |ts| == 2 + 2 * |draws| && Acceptable(ts, |draws|, bits) && n <= |draws|
    requires forall i :: 0 <= i < |draws| ==> draws[i].elapsed == Until(ts, i, bits) - From(ts, i, bits)
    ensures Total(draws, n) + Gaps(ts, bits, n) == (if n == 0 then 0 else Until(ts, n - 1, bits)) && Gaps(ts, bits, n) >= 0
    ensures Total(draws, n) <= Masked(ts[1], ts[0], bits)
    ensures forall i, j :: 0 <= i < j < n ==> Until(ts, i, bits) <= From(ts, j, bits)
  {
    hide Masked;
    if n > 0 {
      TicksAddUp(ts, draws, bits, n - 1);
      assert InScene(ts, n - 1, bits);
      if n > 1 { assert InScene(ts, n - 2, bits); }
      forall i | 0 <= i < n - 1 ensures Until(ts, i, bits) <= From(ts, n - 1, bits) {
        if i < n - 2 { assert Until(ts, i, bits) <= From(ts, n - 2, bits); }
      }
    }
  }

  // ----- What the readings stand for -----

  /** When things really happened, on a counter that never wraps. */
  datatype Times = Times(start: nat, end: nat, begins: seq<nat>, ends: seq<nat>)

  /** A scene of some length, shorter than one turn of the counter, with its draws one after the other inside it. */
  predicate IsScene(t: Times, draws: nat, bits: nat) {
    && t.start < t.end < t.start + Power(bits) && |t.begins| == |t.ends| == draws
    && (forall i :: 0 <= i < draws ==> t.start <= t.begins[i] <= t.ends[i] <= t.end)
    && forall i :: 0 < i < draws ==> t.ends[i - 1] <= t.begins[i]
  }

  /** The counter shows the lower bits of these times. */
  predicate ReadsAs(t: Times, ts: seq<nat>, bits: nat)
    requires |ts| == 2 + 2 * |t.begins| && |t.ends| == |t.begins|
  {
    && ts[0] == t.start % Power(bits) && ts[1] == t.end % Power(bits)
    && forall i :: 0 <= i < |t.begins| ==> ts[2 + 2 * i] == t.begins[i] % Power(bits) && ts[3 + 2 * i] == t.ends[i] % Power(bits)
  }

  /** The offsets computed from the readings are the true ones, however the counter wrapped. */
  lemma OffsetsAreTrue(t: Times, ts: seq<nat>, bits: nat)
    requires 0 < bits <= 64 && |ts| == 2 + 2 * |t.begins| && IsScene(t, |t.begins|, bits) && ReadsAs(t, ts, bits)
    ensures Masked(ts[1], ts[0], bits) == t.end - t.start
    ensures forall i :: 0 <= i < |t.begins| ==> From(ts, i, bits) == t.begins[i] - t.start && Until(ts, i, bits) == t.ends[i] - t.start
  {
    hide Power, Masked;
    WrapIsHarmless(t.start, t.end, bits);
    forall i | 0 <= i < |t.begins|
      ensures From(ts, i, bits) == t.begins[i] - t.start && Until(ts, i, bits) == t.ends[i] - t.start
    {
      WrapIsHarmless(t.start, t.begins[i], bits);
      WrapIsHarmless(t.start, t.ends[i], bits);
    }
  }

  /** A reading is the start and the offset, wrapped. */
  lemma ReadBack(x: nat, start: nat, bits: nat)
    requires 0 < bits <= 64 && x < Power(bits) && start < Power(bits)
    ensures (start + Masked(x, start, bits)) % Power(bits) == x
  {
    hide Power, Masked;
    MaskedIsModulo(x, start, bits);
    var m := Power(bits);
    if x >= start { Unique(x - start, m, 0, x - start); } else { Unique(x - start, m, -1, x - start + m); }
    if x >= start { Unique(x, m, 0, x); } else { Unique(x + m, m, 1, x); }
  }

  /** A scene that starts with its counter in the first turn. */
  function SceneOf(ts: seq<nat>, draws: nat, bits: nat): (t: Times)
    requires 0 < bits <= 64 && |ts| == 2 + 2 * draws
    ensures |t.begins| == |t.ends| == draws
  {
    Times(ts[0], ts[0] + Masked(ts[1], ts[0], bits), seq(draws, i requires 0 <= i < draws => ts[0] + From(ts, i, bits)),
          seq(draws, i requires 0 <= i < draws => ts[0] + Until(ts, i, bits)))
  }

  lemma SceneIsRead(ts: seq<nat>, draws: nat, bits: nat)
    requires 0 < bits <= 64 && |ts| == 2 + 2 * draws && Acceptable(ts, draws, bits)
    ensures ReadsAs(SceneOf(ts, draws, bits), ts, bits)
  {
    hide Power, Masked, InScene;
    Unique(ts[0], Power(bits), 0, ts[0]);
    ReadBack(ts[1], ts[0], bits);
    forall i | 0 <= i < draws
      ensures ts[2 + 2 * i] == (ts[0] + From(ts, i, bits)) % Power(bits)
      ensures ts[3 + 2 * i] == (ts[0] + Until(ts, i, bits)) % Power(bits)
    {
      ReadBack(ts[2 + 2 * i], ts[0], bits);
      ReadBack(ts[3 + 2 * i], ts[0], bits);
    }
  }

  lemma SceneInOrder(ts: seq<nat>, draws: nat, bits: nat)
    requires 0 < bits <= 64 && |ts| == 2 + 2 * draws && Acceptable(ts, draws, bits)
    ensures IsScene(SceneOf(ts, draws, bits), draws, bits)
  {
    hide Power, Masked, From, Until;
    forall i | 0 <= i < draws
      ensures From(ts, i, bits) <= Until(ts, i, bits) <= Masked(ts[1], ts[0], bits)
      ensures i > 0 ==> Until(ts, i - 1, bits) <= From(ts, i, bits)
    {
      assert InScene(ts, i, bits);
    }
  }

  /** Main result: readings are accepted exactly if they are those of some scene. */
  lemma AcceptedIsScene(ts: seq<nat>, draws: nat, bits: nat)
    requires 0 < bits <= 64 && |ts| == 2 + 2 * draws
    ensures Acceptable(ts, draws, bits) <==> exists t :: IsScene(t, draws, bits) && ReadsAs(t, ts, bits)
  {
    if Acceptable(ts, draws, bits) {
      SceneIsRead(ts, draws, bits);
      SceneInOrder(ts, draws, bits);
    }
    if t :| IsScene(t, draws, bits) && ReadsAs(t, ts, bits) { SceneAccepted(t, ts, bits); }
  }

  lemma SceneAccepted(t: Times, ts: seq<nat>, bits: nat)
    requires 0 < bits <= 64 && |ts| == 2 + 2 * |t.begins| && IsScene(t, |t.begins|, bits) && ReadsAs(t, ts, bits)
    ensures Acceptable(ts, |t.begins|, bits)
  {
    hide Power, Masked, From, Until;
    OffsetsAreTrue(t, ts, bits);
    forall k | 0 <= k < |ts| ensures ts[k] < Power(bits) {
      var i := (k - 2) / 2;
      assert k >= 2 ==> (k == 2 + 2 * i && ts[k] == t.begins[i] % Power(bits)) || (k == 3 + 2 * i && ts[k] == t.ends[i] % Power(bits));
    }
  }

  /** The range doubles with every bit. */
  lemma PowerDoubles(n: nat)
    ensures Power(0) == 1 && Power(n + 1) == 2 * Power(n) && Power(64) == 0x1_0000_0000_0000_0000
  {
    assert Power(4) == 16;
    PowerSplits(4, 8);
    PowerSplits(8, 16);
    PowerSplits(16, 32);
    PowerSplits(32, 64);
  }
}
