/** What binds and setters do to a field of a draw, told from the commands alone: which setters a bind voids, and which
    form of array setter counts. */
module DrawScenarios {
  import opened Prelude
  import opened DrawReading

  predicate Sets(c: Command, f: Field) {
    (c.SetScalar? && c.scalar == f) || (c.SetArray? && c.array_ == f)
  }

  /** No command between the two places sets the field. */
  ghost predicate Unset(h: seq<Call>, i: int, t: nat, f: Field)
    requires t <= |h|
  {
    forall j :: 0 <= j && i < j < t ==> !Sets(h[j].command, f)
  }

  /** The latest command that sets the field. */
  ghost predicate LastSetter(h: seq<Call>, i: nat, t: nat, f: Field)
    requires t <= |h|
  {
    i < t && Sets(h[i].command, f) && Unset(h, i, t, f)
  }

  lemma LastSetterExists(h: seq<Call>, b: nat, t: nat, f: Field) returns (i: nat)
    requires b < t <= |h| && !Unset(h, b, t, f)
    ensures b < i && LastSetter(h, i, t, f)
  {
    i := t - 1;
    while !Sets(h[i].command, f)
      invariant b < i < t && Unset(h, i, t, f)
      decreases i
    {
      i := i - 1;
    }
  }

  /** The draw at `t` is made with this pipeline bound, in the pass it is for, and its state has the field decoded. */
  ghost predicate Drawn(h: seq<Call>, t: nat, p: Pipeline, f: Field)
    requires t <= |h|
  {
    && (exists b: nat :: LastBind(h, b, t) && h[b].command == BindPipeline(Some(p)))
    && (exists i: nat :: PassFrom(h, i, p.target, t))
    && (f in p.values ==> p.values[f].Value?)
  }

  ghost predicate AllOk(h: seq<Call>, t: nat, readback: bool)
    requires t <= |h|
  {
    forall j :: 0 <= j < t ==> StepOk(h, j, readback)
  }

  lemma DrawnMeans(h: seq<Call>, t: nat, p: Pipeline, f: Field)
    requires t <= |h| && Drawn(h, t, p, f)
    ensures PipelineAt(h, t) == Bound(p) && PassAt(h, t) == Some(p.target)
  {
    PipelineIsLatest(h, t, Some(p));
    PassIsOpen(h, t, p.target);
  }

  /** Nothing set before the bind stands after it, and what is set last does. */
  lemma SetSinceIff(h: seq<Call>, t: nat, b: nat, p: Pipeline, f: Field, readback: bool)
    requires t <= |h| && AllOk(h, t, readback) && LastBind(h, b, t) && h[b].command == BindPipeline(Some(p))
    requires f !in p.dynamic && f !in p.withCount
    ensures SetSinceBind(h, t, f) <==> !Unset(h, b, t, f)
  {
    if Unset(h, b, t, f) {
      forall i: nat ensures !ScalarStands(h, i, f, t) {
        assert OverridesScalar(h[b].command, f);
      }
      forall i: nat, k: nat ensures !IndexStands(h, i, f, k, t) {
        if i < b && Covers(h[i].command, f, k) { assert OverridesIndex(h[i].command, h[b].command, f, k); }
      }
    } else {
      var i := LastSetterExists(h, b, t, f);
      assert StepOk(h, i, readback);
      if IsArray(f) { assert IndexStands(h, i, f, h[i].command.first, t); } else { assert ScalarStands(h, i, f, t); }
    }
  }

  /** A static field is reported as set too late exactly if a command sets it after the bind in force; otherwise its
      static value is reported. Settings from before that bind do not show. */
  lemma StaticField(h: seq<Call>, t: nat, b: nat, p: Pipeline, f: Field, row: Row, readback: bool)
    requires t <= |h| && AllOk(h, t, readback) && Drawn(h, t, p, f) && RowOk(h, t, f, row)
    requires LastBind(h, b, t) && h[b].command == BindPipeline(Some(p)) && f !in p.dynamic && f !in p.withCount
    ensures if Unset(h, b, t, f) then row == (if f in p.values then Fixed(p.values[f].value) else Unknown)
            else row == LateSetter
  {
    DrawnMeans(h, t, p, f);
    SetSinceIff(h, t, b, p, f, readback);
  }

  /** The bind voids what was set before: it binds nothing known, or a pipeline that makes the field static. */
  predicate Clears(c: Command, f: Field) {
    c.BindPipeline? && (c.pipeline.Some? ==> f !in c.pipeline.value.dynamic && f !in c.pipeline.value.withCount)
  }

  predicate IsDynamic(p: Pipeline, f: Field) {
    f in p.dynamic || f in p.withCount
  }

  /** A dynamic field is missing if it was never set, or not since a bind that voids it. */
  lemma ClearedIsMissing(h: seq<Call>, t: nat, c: int, p: Pipeline, f: Field, row: Row)
    requires t <= |h| && Drawn(h, t, p, f) && RowOk(h, t, f, row) && IsDynamic(p, f)
    requires -1 <= c < t && (c >= 0 ==> Clears(h[c].command, f)) && Unset(h, c, t, f)
    ensures row == Missing
  {
    DrawnMeans(h, t, p, f);
    forall i: nat ensures !ScalarStands(h, i, f, t) {
      assert c >= 0 ==> OverridesScalar(h[c].command, f);
    }
    forall i: nat, k: nat ensures !IndexStands(h, i, f, k, t) {
      if i < c && Covers(h[i].command, f, k) { assert OverridesIndex(h[i].command, h[c].command, f, k); }
    }
    if IsArray(f) { NothingStands(h, t, p, f, row); }
  }

  lemma NothingStands(h: seq<Call>, t: nat, p: Pipeline, f: Field, row: Row)
    requires t <= |h| && ArrayRow(h, t, p, f, row)
    requires forall i: nat :: IndexStands(h, i, f, 0, t) ==> h[i].command.withCount != (f in p.withCount)
    ensures row == Missing
  {
    assert !IndexSet(h, t, f, f in p.withCount, 0);
  }

  /** The setter in force for a dynamic scalar is the latest one, if no bind after it voids it. */
  lemma LatestScalar(h: seq<Call>, t: nat, i: nat, p: Pipeline, f: Field, row: Row)
    requires t <= |h| && Drawn(h, t, p, f) && RowOk(h, t, f, row) && IsDynamic(p, f) && !f.Viewports? && !f.Scissors?
    requires LastSetter(h, i, t, f) && h[i].command.SetScalar?
    requires forall j :: i < j < t ==> !Clears(h[j].command, f)
    ensures row == Recorded([Setting(h[i].command.value, h[i].event)])
  {
    DrawnMeans(h, t, p, f);
    assert ScalarStands(h, i, f, t);
  }

  /** The regular form of a pipeline fixes its own count: binding it voids what a WithCount setter wrote. */
  lemma RegularVoidsCounts(h: seq<Call>, t: nat, i: nat, b: nat, q: Pipeline, p: Pipeline, f: Field, row: Row)
    requires t <= |h| && Drawn(h, t, p, f) && RowOk(h, t, f, row) && IsDynamic(p, f) && (f.Viewports? || f.Scissors?)
    requires LastSetter(h, i, t, f) && h[i].command.SetArray? && h[i].command.withCount
    requires i < b < t && h[b].command == BindPipeline(Some(q)) && f in q.dynamic
    ensures row == Missing
  {
    DrawnMeans(h, t, p, f);
    forall k: nat, n: nat ensures !IndexStands(h, n, f, k, t) {
      if n < i && Covers(h[n].command, f, k) { assert OverridesIndex(h[n].command, h[i].command, f, k); }
      assert OverridesIndex(h[i].command, h[b].command, f, k);
    }
    NothingStands(h, t, p, f, row);
  }

  /** A WithCount setter replaces the whole array, whatever was written before: the draw reports exactly its values, and
      only to a pipeline of the WithCount form. */
  lemma CountSetterIsWhole(h: seq<Call>, t: nat, i: nat, p: Pipeline, f: Field, row: Row, readback: bool)
    requires t <= |h| && AllOk(h, t, readback) && Drawn(h, t, p, f) && RowOk(h, t, f, row) && IsDynamic(p, f) && (f.Viewports? || f.Scissors?)
    requires LastSetter(h, i, t, f) && h[i].command.SetArray? && h[i].command.withCount
    requires forall j :: i < j < t ==> !Clears(h[j].command, f) && !BindsRegular(h[j].command, f)
    ensures if f in p.withCount then row == Recorded(Settings(h[i])) else row == Missing
  {
    DrawnMeans(h, t, p, f);
    assert StepOk(h, i, readback);
    var n := |h[i].command.values|;
    forall k: nat, j: nat ensures IndexStands(h, j, f, k, t) <==> j == i && k < n {
      if j < i && Covers(h[j].command, f, k) { assert OverridesIndex(h[j].command, h[i].command, f, k); }
      if j == i && k < n { assert Covers(h[i].command, f, k); }
    }
    if f in p.withCount {
      WholeArray(h, t, i, p, f, row);
    } else {
      NothingStands(h, t, p, f, row);
    }
  }

  predicate BindsRegular(c: Command, f: Field) {
    c.BindPipeline? && c.pipeline.Some? && f in c.pipeline.value.dynamic
  }

  function Settings(c: Call): (r: seq<Setting>)
    requires c.command.SetArray?
    ensures |r| == |c.command.values| && forall k :: 0 <= k < |r| ==> r[k] == Setting(c.command.values[k], c.event)
  {
    seq(|c.command.values|, k requires 0 <= k < |c.command.values| => Setting(c.command.values[k], c.event))
  }

  lemma WholeArray(h: seq<Call>, t: nat, i: nat, p: Pipeline, f: Field, row: Row)
    requires t <= |h| && i < t && ArrayRow(h, t, p, f, row) && f in p.withCount
    requires h[i].command.SetArray? && h[i].command.withCount && h[i].command.first == 0 && h[i].command.array_ == f
    requires 0 < |h[i].command.values| <= ARRAY_LIMIT
    requires forall k: nat, j: nat :: IndexStands(h, j, f, k, t) <==> j == i && k < |h[i].command.values|
    ensures row == Recorded(Settings(h[i]))
  {
    var n := |h[i].command.values|;
    forall k: nat | k < n ensures IndexSet(h, t, f, true, k) { assert IndexStands(h, i, f, k, t); }
    assert IndexStands(h, i, f, 0, t);
    assert ArrayLength(h, t, p, f, n) && Complete(h, t, f, true, n);
    assert row.Recorded? && |row.settings| == n;
    forall k: nat | k < n ensures row.settings[k] == Settings(h[i])[k] { assert IndexStands(h, i, f, k, t); }
    assert row.settings == Settings(h[i]);
  }

  /** A write of the regular form counts only for pipelines of that form. */
  lemma RegularNeedsRegular(h: seq<Call>, t: nat, i: nat, p: Pipeline, f: Field, row: Row)
    requires t <= |h| && Drawn(h, t, p, f) && RowOk(h, t, f, row) && (f.Viewports? || f.Scissors?) && f in p.withCount
    requires LastSetter(h, i, t, f) && h[i].command.SetArray? && !h[i].command.withCount
    ensures row == Missing
  {
    DrawnMeans(h, t, p, f);
    forall j: nat | IndexStands(h, j, f, 0, t) ensures !h[j].command.withCount {
      if j < i && h[j].command.withCount { assert OverridesIndex(h[j].command, h[i].command, f, 0); }
    }
    NothingStands(h, t, p, f, row);
  }

  /** A pipeline of the regular form takes as many elements as it declares: the latest write is reported if it begins at
      the first element and reaches that far, and without a declared number nothing is. */
  lemma RegularTakesItsCount(h: seq<Call>, t: nat, i: nat, p: Pipeline, f: Field, n: nat, row: Row)
    requires t <= |h| && Drawn(h, t, p, f) && RowOk(h, t, f, row) && (f.Viewports? || f.Scissors?)
    requires f in p.dynamic && f !in p.withCount && n <= ARRAY_LIMIT && (if f in p.counts then n == p.counts[f] else n == 0)
    requires LastSetter(h, i, t, f) && h[i].command.SetArray? && !h[i].command.withCount
    requires h[i].command.first == 0 && n <= |h[i].command.values| && forall j :: i < j < t ==> !Clears(h[j].command, f)
    ensures row == if n == 0 then Missing else Recorded(Settings(h[i])[..n])
  {
    DrawnMeans(h, t, p, f);
    forall k: nat, j: nat | k < n ensures IndexStands(h, j, f, k, t) <==> j == i {
      assert Covers(h[i].command, f, k);
      if j < i && Covers(h[j].command, f, k) { assert OverridesIndex(h[j].command, h[i].command, f, k); }
    }
    forall k: nat | k < n ensures IndexSet(h, t, f, false, k) { assert IndexStands(h, i, f, k, t); }
    assert ArrayLength(h, t, p, f, n);
    if n > 0 {
      assert Complete(h, t, f, false, n);
      assert row.Recorded? && |row.settings| == n;
      forall k: nat | k < n ensures row.settings[k] == Settings(h[i])[k] { assert IndexStands(h, i, f, k, t); }
      assert row.settings == Settings(h[i])[..n];
    }
  }

  lemma {:induction false} DepthJoins(h: seq<Call>, i: nat, m: nat, t: nat)
    requires i <= m <= t <= |h|
    ensures Depth(h, i, t) == Depth(h, i, m) + Depth(h, m, t)
  {
    if m < t { DepthJoins(h, i, m, t - 1); }
  }

  lemma {:induction false} DepthIsCount(h: seq<Call>, t: nat, readback: bool)
    requires t <= |h| && AllOk(h, t, readback)
    ensures Depth(h, 0, t) >= 0
  {
    if t > 0 {
      DepthIsCount(h, t - 1, readback);
      assert StepOk(h, t - 1, readback);
    }
  }

  /** A legal recording is one begin and one end with qualified commands between them; every label begun is ended, every
      pass begun is ended, indexed draws come after an index buffer, and readbacks lie outside of passes. */
  lemma LegalShape(h: seq<Call>, readback: bool, t: nat)
    requires Legal(h, readback) && t < |h|
    ensures h[t].qualified && (h[t].command.BeginRecording? <==> t == 0) && (h[t].command.EndRecording? <==> t == |h| - 1)
    ensures !IsOpen(h, t, |h| - 1) && PassAt(h, |h| - 1) == None
    ensures h[t].command.Draw? && h[t].command.indexed ==> exists i :: 0 <= i < t && h[i].command.BindIndex?
    ensures h[t].command.Readback? ==> readback && forall p, i: nat :: !PassFrom(h, i, p, t)
    ensures h[t].command.EndPass? ==> exists p, i: nat :: PassFrom(h, i, p, t) && h[t].command.rendering == p.Rendering?
  {
    assert StepOk(h, t, readback) && StepOk(h, |h| - 1, readback);
    var e := |h| - 1;
    if t < e {
      DepthJoins(h, 0, t, e);
      DepthIsCount(h, t, readback);
    }
    if h[t].command.Readback? {
      forall p, i: nat ensures !PassFrom(h, i, p, t) { PassIsOpen(h, t, p); }
    }
    if h[t].command.EndPass? { PassIsOpen(h, t, PassAt(h, t).value); }
  }
}
