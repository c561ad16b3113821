/** What a recorded command buffer means at each of its draws, read off the whole command history. */
module DrawReading {
  import opened Prelude

  const LABEL_DEPTH := 16
  const ARRAY_LIMIT := 16
  const DRAW_LIMIT := 4096

  datatype Field = DepthTest | DepthWrite | DepthCompare | CullMode | FrontFace | Viewports | Scissors

  predicate IsArray(f: Field) {
    f.Viewports? || f.Scissors?
  }

  /** A render pass by name, or dynamic rendering by its attachment formats. */
  datatype Pass = RenderPass(name: string) | Rendering(formats: string)

  datatype Static = Value(value: seq<nat>) | Unapplicable | Undecodable

  /** A decoded graphics pipeline: `dynamic` holds the regular dynamic states, `withCount` the WITH_COUNT forms. */
  datatype Pipeline = Pipeline(
    symbol: string, target: Pass, dynamic: set<Field>, withCount: set<Field>,
    counts: map<Field, nat>, values: map<Field, Static>)

  datatype Command =
    | BeginRecording
    | EndRecording
    | BeginLabel(text: string)
    | EndLabel
    | BeginPass(pass: Pass)
    | EndPass(rendering: bool)
    | BindPipeline(pipeline: Option<Pipeline>)
    | BindIndex
    | SetScalar(scalar: Field, value: nat)
    | SetArray(array_: Field, withCount: bool, first: nat, values: seq<nat>)
    | Draw(indexed: bool)
    | Readback
    | Neutral

  /** `qualified` says that the command is a known one and its operands decode. */
  datatype Call = Call(event: nat, qualified: bool, command: Command)

  datatype Setting = Setting(value: nat, event: nat)

  datatype Row =
    | Unbound(never: bool)
    | OtherPass
    | Inapplicable
    | Unsupported
    | Missing                          // dynamic, but never or not completely set
    | Recorded(settings: seq<Setting>) // dynamic, as set
    | LateSetter                       // static, but set dynamically after the bind
    | Fixed(fixed: seq<nat>)           // static
    | Unknown

  datatype DrawRecord = DrawRecord(event: nat, labels: seq<string>, state: map<Field, Row>)

  // ----- Scopes -----

  function LabelStep(c: Command): int {
    match c
    case BeginLabel(_) => 1
    case EndLabel => -1
    case _ => 0
  }

  /** Label scopes opened minus label scopes closed by the commands i..t. */
  function Depth(h: seq<Call>, i: nat, t: nat): int
    requires i <= t <= |h|
  {
    if i == t then 0 else Depth(h, i, t - 1) + LabelStep(h[t - 1].command)
  }

  /** The label begun at `i` has not been closed before `t`. */
  ghost predicate IsOpen(h: seq<Call>, i: nat, t: nat)
    requires t <= |h|
  {
    i < t && h[i].command.BeginLabel? && forall j :: i < j <= t ==> Depth(h, i, j) >= 1
  }

  /** The texts of the open labels, outermost first; `opens` are the places where they were begun. */
  ghost predicate OpenLabels(h: seq<Call>, t: nat, opens: seq<nat>, labels: seq<string>)
    requires t <= |h|
  {
    && Increasing(opens) && |labels| == |opens|
    && (forall i :: i in opens <==> IsOpen(h, i, t))
    && (forall k :: 0 <= k < |opens| ==> opens[k] < t && h[opens[k]].command == BeginLabel(labels[k]))
  }

  /** The pass begun and not yet ended. */
  function PassAt(h: seq<Call>, t: nat): Option<Pass>
    requires t <= |h|
  {
    if t == 0 then None
    else match h[t - 1].command
      case BeginPass(p) => Some(p)
      case EndPass(_) => None
      case _ => PassAt(h, t - 1)
  }

  datatype Current = NeverBound | Unqualified | Bound(pipeline: Pipeline)

  /** The pipeline of the latest bind. */
  function PipelineAt(h: seq<Call>, t: nat): Current
    requires t <= |h|
  {
    if t == 0 then NeverBound
    else match h[t - 1].command
      case BindPipeline(p) => if p.Some? then Bound(p.value) else Unqualified
      case _ => PipelineAt(h, t - 1)
  }

  predicate IndexBound(h: seq<Call>, t: nat)
    requires t <= |h|
  {
    exists i :: 0 <= i < t && h[i].command.BindIndex?
  }

  // ----- Dynamic state -----

  predicate IsStatic(p: Pipeline, f: Field) {
    f !in p.dynamic && f !in p.withCount
  }

  /** The command makes earlier scalar settings of the field void. */
  predicate OverridesScalar(c: Command, f: Field) {
    match c
    case BindPipeline(p) => p.None? || IsStatic(p.value, f)
    case SetScalar(g, _) => g == f
    case _ => false
  }

  /** The setter at `i` is the one in force for the field. */
  ghost predicate ScalarStands(h: seq<Call>, i: nat, f: Field, t: nat)
    requires t <= |h|
  {
    && i < t && h[i].command.SetScalar? && h[i].command.scalar == f
    && forall j :: i < j < t ==> !OverridesScalar(h[j].command, f)
  }

  predicate Covers(c: Command, f: Field, k: nat) {
    c.SetArray? && c.array_ == f && c.first <= k < c.first + |c.values|
  }

  /** The command makes what `setter` wrote at an index void: a bind of an unqualified pipeline or of one that
      makes the array static, a bind of the regular form over a WithCount array, a WithCount setter, a
      change of setter, or a write to that index. */
  predicate OverridesIndex(setter: Command, c: Command, f: Field, k: nat)
    requires setter.SetArray?
  {
    match c
    case BindPipeline(p) => p.None? || IsStatic(p.value, f) || (setter.withCount && f in p.value.dynamic)
    case SetArray(g, withCount, _, _) => g == f && (setter.withCount || withCount || Covers(c, f, k))
    case _ => false
  }

  /** The array setter at `i` is the one in force for index `k` of the field. */
  ghost predicate IndexStands(h: seq<Call>, i: nat, f: Field, k: nat, t: nat)
    requires t <= |h|
  {
    && i < t && Covers(h[i].command, f, k)
    && forall j :: i < j < t ==> !OverridesIndex(h[i].command, h[j].command, f, k)
  }

  function WrittenAt(c: Call, k: nat): Setting
    requires c.command.SetArray? && c.command.first <= k < c.command.first + |c.command.values|
  {
    Setting(c.command.values[k - c.command.first], c.event)
  }

  // ----- What a draw reports -----

  function Count(p: Pipeline, f: Field): nat {
    if f in p.counts then p.counts[f] else 0
  }

  ghost predicate ScalarRow(h: seq<Call>, t: nat, f: Field, row: Row)
    requires t <= |h|
  {
    && (forall i: nat :: ScalarStands(h, i, f, t) ==> row == Recorded([Setting(h[i].command.value, h[i].event)]))
    && ((forall i: nat :: !ScalarStands(h, i, f, t)) ==> row == Missing)
  }

  ghost predicate IndexSet(h: seq<Call>, t: nat, f: Field, withCount: bool, k: nat)
    requires t <= |h|
  {
    exists i: nat :: IndexStands(h, i, f, k, t) && h[i].command.withCount == withCount
  }

  /** All of the array's first `n` indices stand, written by the form of setter the pipeline asks for. */
  ghost predicate Complete(h: seq<Call>, t: nat, f: Field, withCount: bool, n: nat)
    requires t <= |h|
  {
    0 < n <= ARRAY_LIMIT && forall k: nat :: k < n ==> IndexSet(h, t, f, withCount, k)
  }

  /** The array length at the draw: the setter's for WithCount, else the pipeline's. */
  ghost predicate ArrayLength(h: seq<Call>, t: nat, p: Pipeline, f: Field, n: nat)
    requires t <= |h|
  {
    if f in p.withCount
    then (forall i: nat :: IndexStands(h, i, f, 0, t) && h[i].command.withCount ==> n == |h[i].command.values|)
    else n == Count(p, f)
  }

  ghost predicate ArrayRow(h: seq<Call>, t: nat, p: Pipeline, f: Field, row: Row)
    requires t <= |h|
  {
    && (row.Recorded? ==>
          && ArrayLength(h, t, p, f, |row.settings|)
          && Complete(h, t, f, f in p.withCount, |row.settings|)
          && forall i: nat, k: nat :: k < |row.settings| && IndexStands(h, i, f, k, t) ==>
                              row.settings[k] == WrittenAt(h[i], k))
    && (!row.Recorded? ==>
          && row == Missing
          && forall n: nat :: ArrayLength(h, t, p, f, n) ==> !Complete(h, t, f, f in p.withCount, n))
  }

  ghost predicate SetSinceBind(h: seq<Call>, t: nat, f: Field)
    requires t <= |h|
  {
    if IsArray(f) then exists i: nat, k: nat :: IndexStands(h, i, f, k, t) else exists i: nat :: ScalarStands(h, i, f, t)
  }

  /** The reading of one field at a draw. */
  ghost predicate RowOk(h: seq<Call>, t: nat, f: Field, row: Row)
    requires t <= |h|
  {
    match PipelineAt(h, t)
    case NeverBound => row == Unbound(true)
    case Unqualified => row == Unbound(false)
    case Bound(p) =>
      if Some(p.target) != PassAt(h, t) then row == OtherPass
      else if f in p.values && p.values[f].Unapplicable? then row == Inapplicable
      else if f in p.values && p.values[f].Undecodable? then row == Unsupported
      else if IsStatic(p, f) then
        if SetSinceBind(h, t, f) then row == LateSetter
        else row == if f in p.values then Fixed(p.values[f].value) else Unknown
      else if IsArray(f) then ArrayRow(h, t, p, f, row)
      else ScalarRow(h, t, f, row)
  }

  ghost predicate DrawOk(h: seq<Call>, t: nat, d: DrawRecord)
    requires t < |h|
  {
    && d.event == h[t].event
    && (exists opens :: OpenLabels(h, t, opens, d.labels))
    && forall f :: f in d.state && RowOk(h, t, f, d.state[f])
  }

  // ----- Which recordings are accepted -----

  predicate StepOk(h: seq<Call>, t: nat, readback: bool)
    requires t < |h|
  {
    h[t].qualified &&
    match h[t].command
    case BeginRecording => t == 0
    case EndRecording => t + 1 == |h| && PassAt(h, t).None? && Depth(h, 0, t) == 0
    case BeginLabel(_) => Depth(h, 0, t) < LABEL_DEPTH
    case EndLabel => Depth(h, 0, t) > 0
    case BeginPass(_) => PassAt(h, t).None?
    case EndPass(rendering) => PassAt(h, t).Some? && PassAt(h, t).value.Rendering? == rendering
    case SetScalar(f, _) => !IsArray(f)
    case SetArray(f, withCount, first, values) =>
      IsArray(f) && 0 < |values| && first + |values| <= ARRAY_LIMIT && (withCount ==> first == 0)
    case Draw(indexed) => PassAt(h, t).Some? && (indexed ==> IndexBound(h, t))
    case Readback => readback && PassAt(h, t).None?
    case _ => true
  }

  /** The places of the draws, in order. */
  function DrawPlaces(h: seq<Call>, t: nat): seq<nat>
    requires t <= |h|
  {
    if t == 0 then [] else DrawPlaces(h, t - 1) + if h[t - 1].command.Draw? then [t - 1] else []
  }

  predicate DistinctEvents(h: seq<Call>, t: nat)
    requires t <= |h|
  {
    forall i, j :: 0 <= i < j < t ==> h[i].event != h[j].event
  }

  /** The recording is well bracketed, every command qualified and in place, every event annotation unique. */
  predicate Legal(h: seq<Call>, readback: bool) {
    && |h| >= 2 && h[0].command.BeginRecording? && h[|h| - 1].command.EndRecording?
    && (forall t :: 0 <= t < |h| ==> StepOk(h, t, readback))
    && DistinctEvents(h, |h|) && |DrawPlaces(h, |h|)| <= DRAW_LIMIT
  }

  // ----- One more command -----

  lemma {:induction false} PlacesGrow(h: seq<Call>, m: nat, n: nat)
    requires m <= n <= |h|
    ensures |DrawPlaces(h, m)| <= |DrawPlaces(h, n)|
  {
    if m < n { PlacesGrow(h, m, n - 1); }
  }

  lemma {:induction false} PlacesBelow(h: seq<Call>, t: nat)
    requires t <= |h|
    ensures forall p: nat :: p in DrawPlaces(h, t) <==> p < t && h[p].command.Draw?
  {
    if t > 0 { PlacesBelow(h, t - 1); }
  }

  lemma ScalarStep(h: seq<Call>, i: nat, f: Field, t: nat)
    requires t < |h|
    ensures ScalarStands(h, i, f, t + 1) <==>
            if i == t then h[t].command.SetScalar? && h[t].command.scalar == f
            else ScalarStands(h, i, f, t) && !OverridesScalar(h[t].command, f)
  {
  }

  lemma IndexStep(h: seq<Call>, i: nat, f: Field, k: nat, t: nat)
    requires t < |h|
    ensures IndexStands(h, i, f, k, t + 1) <==>
            if i == t then Covers(h[t].command, f, k)
            else IndexStands(h, i, f, k, t) && !OverridesIndex(h[i].command, h[t].command, f, k)
  {
  }

  /** At most one setter is in force. */
  lemma ScalarUnique(h: seq<Call>, i: nat, j: nat, f: Field, t: nat)
    requires t <= |h| && ScalarStands(h, i, f, t) && ScalarStands(h, j, f, t)
    ensures i == j
  {
    assert OverridesScalar(h[i].command, f) && OverridesScalar(h[j].command, f);
  }

  lemma IndexUnique(h: seq<Call>, i: nat, j: nat, f: Field, k: nat, t: nat)
    requires t <= |h| && IndexStands(h, i, f, k, t) && IndexStands(h, j, f, k, t)
    ensures i == j
  {
    assert OverridesIndex(h[i].command, h[j].command, f, k) && OverridesIndex(h[j].command, h[i].command, f, k);
  }

  lemma OpenStep(h: seq<Call>, i: nat, t: nat)
    requires t < |h|
    ensures IsOpen(h, i, t + 1) <==>
            if i == t then h[t].command.BeginLabel? else IsOpen(h, i, t) && Depth(h, i, t + 1) >= 1
  {
    if i == t { assert Depth(h, t, t + 1) == LabelStep(h[t].command) + Depth(h, t, t); }
  }

  /** With every close matched, the k-th open label is nested k deep, so the next close ends the innermost. */
  ghost predicate Nested(h: seq<Call>, t: nat, opens: seq<nat>)
    requires t <= |h|
  {
    forall k :: 0 <= k < |opens| ==> opens[k] < t && Depth(h, opens[k], t) == |opens| - k
  }

  lemma LabelBegins(h: seq<Call>, t: nat, opens: seq<nat>, labels: seq<string>)
    requires t < |h| && h[t].command.BeginLabel? && OpenLabels(h, t, opens, labels) && Nested(h, t, opens)
    ensures OpenLabels(h, t + 1, opens + [t], labels + [h[t].command.text]) && Nested(h, t + 1, opens + [t])
  {
    forall i ensures i in opens + [t] <==> IsOpen(h, i, t + 1) {
      OpenStep(h, i, t);
      if i in opens { assert IsOpen(h, i, t); }
    }
  }

  lemma LabelEnds(h: seq<Call>, t: nat, opens: seq<nat>, labels: seq<string>)
    requires t < |h| && h[t].command.EndLabel? && OpenLabels(h, t, opens, labels) && Nested(h, t, opens) && opens != []
    ensures OpenLabels(h, t + 1, opens[..|opens| - 1], labels[..|opens| - 1]) && Nested(h, t + 1, opens[..|opens| - 1])
  {
    var r := opens[..|opens| - 1];
    forall i ensures i in r <==> IsOpen(h, i, t + 1) {
      OpenStep(h, i, t);
      if i in opens {
        var k :| 0 <= k < |opens| && opens[k] == i;
        assert Depth(h, i, t) == |opens| - k;
        if k < |r| { assert r[k] == i; }
      }
    }
  }

  lemma LabelsStay(h: seq<Call>, t: nat, opens: seq<nat>, labels: seq<string>)
    requires t < |h| && LabelStep(h[t].command) == 0 && OpenLabels(h, t, opens, labels) && Nested(h, t, opens)
    ensures OpenLabels(h, t + 1, opens, labels) && Nested(h, t + 1, opens)
  {
    forall i ensures i in opens <==> IsOpen(h, i, t + 1) {
      OpenStep(h, i, t);
      if IsOpen(h, i, t) { assert Depth(h, i, t) >= 1; }
    }
  }

  predicate IsPassCommand(c: Command) {
    c.BeginPass? || c.EndPass?
  }

  /** The pass at a point was begun by the latest pass command before it. */
  ghost predicate PassFrom(h: seq<Call>, i: nat, p: Pass, t: nat)
    requires t <= |h|
  {
    i < t && h[i].command == BeginPass(p) && forall j :: i < j < t ==> !IsPassCommand(h[j].command)
  }

  lemma {:induction false} PassIsOpen(h: seq<Call>, t: nat, p: Pass)
    requires t <= |h|
    ensures PassAt(h, t) == Some(p) <==> exists i: nat :: PassFrom(h, i, p, t)
  {
    if t > 0 {
      var s := t - 1;
      PassIsOpen(h, s, p);
      if h[s].command == BeginPass(p) {
        assert PassFrom(h, s, p, t);
      } else if IsPassCommand(h[s].command) {
        forall i: nat ensures !PassFrom(h, i, p, t) {}
      } else {
        forall i: nat ensures PassFrom(h, i, p, t) <==> PassFrom(h, i, p, s) {}
      }
    }
  }

  /** The latest pipeline bind before `t`. */
  ghost predicate LastBind(h: seq<Call>, i: nat, t: nat)
    requires t <= |h|
  {
    i < t && h[i].command.BindPipeline? && forall j :: i < j < t ==> !h[j].command.BindPipeline?
  }

  /** The pipeline in force is that of the latest bind; a bind of an unqualified one leaves none. */
  lemma {:induction false} PipelineIsLatest(h: seq<Call>, t: nat, p: Option<Pipeline>)
    requires t <= |h|
    ensures PipelineAt(h, t) == (if p.Some? then Bound(p.value) else Unqualified) <==>
            exists i: nat :: LastBind(h, i, t) && h[i].command == BindPipeline(p)
    ensures PipelineAt(h, t).NeverBound? <==> forall i :: 0 <= i < t ==> !h[i].command.BindPipeline?
  {
    if t > 0 {
      var s := t - 1;
      PipelineIsLatest(h, s, p);
      if h[s].command.BindPipeline? {
        assert LastBind(h, s, t);
        forall i: nat | i != s ensures !LastBind(h, i, t) {}
      } else {
        forall i: nat ensures LastBind(h, i, t) <==> LastBind(h, i, s) {}
      }
    }
  }

  /** In a legal recording every draw lies in a pass that is begun before it and ended after it by a command of
      the same kind, with no other pass command in between. */
  lemma DrawsLieInPasses(h: seq<Call>, readback: bool, t: nat) returns (i: nat, j: nat, p: Pass)
    requires Legal(h, readback) && t < |h| && h[t].command.Draw?
    ensures i < t < j < |h| && PassFrom(h, i, p, j) && h[j].command == EndPass(p.Rendering?)
  {
    assert StepOk(h, t, readback);
    p := PassAt(h, t).value;
    PassIsOpen(h, t, p);
    i :| PassFrom(h, i, p, t);
    j := t;
    while !IsPassCommand(h[j].command)
      invariant t <= j < |h| && PassFrom(h, i, p, j)
      decreases |h| - j
    {
      PassIsOpen(h, j, p);
      assert StepOk(h, j, readback);
      j := j + 1;
    }
    PassIsOpen(h, j, p);
    assert StepOk(h, j, readback);
  }

  lemma {:induction false} PlacesIncrease(h: seq<Call>, t: nat)
    requires t <= |h|
    ensures Increasing(DrawPlaces(h, t))
  {
    if t > 0 {
      PlacesIncrease(h, t - 1);
      PlacesBelow(h, t - 1);
      var a := DrawPlaces(h, t - 1);
      assert forall i :: 0 <= i < |a| ==> a[i] in a;
    }
  }

  /** The draws of one accepted recording carry distinct event annotations. */
  lemma DrawEventsDistinct(h: seq<Call>, readback: bool, draws: seq<DrawRecord>)
    requires Legal(h, readback) && |draws| == |DrawPlaces(h, |h|)|
    requires forall k :: 0 <= k < |draws| ==> DrawPlaces(h, |h|)[k] < |h| && DrawOk(h, DrawPlaces(h, |h|)[k], draws[k])
    ensures forall i, j :: 0 <= i < j < |draws| ==> draws[i].event != draws[j].event
  {
    var places := DrawPlaces(h, |h|);
    PlacesIncrease(h, |h|);
    forall i, j | 0 <= i < j < |draws| ensures draws[i].event != draws[j].event {
      assert places[i] < places[j];
      assert DrawOk(h, places[i], draws[i]) && DrawOk(h, places[j], draws[j]);
    }
  }
}
