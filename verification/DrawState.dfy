/** The recorder: one pass over a command recording that keeps label and pass scopes, the bound pipeline and
    the dynamic settings up to date, and writes down each draw. */
module DrawState {
  import opened Prelude
  import opened DrawReading

  datatype DynamicArray = DynamicArray(withCount: bool, count: nat, values: map<nat, Setting>)

  // ----- What the incremental maps stand for -----

  ghost predicate ScalarOk(h: seq<Call>, t: nat, f: Field, s: Option<Setting>)
    requires t <= |h|
  {
    if s.Some?
    then exists i: nat :: ScalarStands(h, i, f, t) && s.value == Setting(h[i].command.value, h[i].event)
    else forall i: nat :: !ScalarStands(h, i, f, t)
  }

  ghost predicate EntryOk(h: seq<Call>, t: nat, f: Field, k: nat, a: DynamicArray)
    requires t <= |h|
  {
    if k in a.values
    then exists i: nat ::
           && IndexStands(h, i, f, k, t) && a.values[k] == WrittenAt(h[i], k)
           && h[i].command.withCount == a.withCount && (a.withCount ==> |h[i].command.values| == a.count)
    else forall i: nat :: !IndexStands(h, i, f, k, t)
  }

  ghost predicate ArrayOk(h: seq<Call>, t: nat, f: Field, a: Option<DynamicArray>)
    requires t <= |h|
  {
    if a.None? then forall i: nat, k: nat :: !IndexStands(h, i, f, k, t)
    else
      && a.value.values != map[]
      && (a.value.withCount ==> forall k: nat :: k in a.value.values <==> k < a.value.count)
      && forall k: nat :: EntryOk(h, t, f, k, a.value)
  }

  function Look<V>(m: map<Field, V>, f: Field): Option<V> {
    if f in m then Some(m[f]) else None
  }

  // ----- One command at a time -----

  lemma ScalarStays(h: seq<Call>, t: nat, f: Field, s: Option<Setting>)
    requires t < |h| && ScalarOk(h, t, f, s) && !OverridesScalar(h[t].command, f)
    ensures ScalarOk(h, t + 1, f, s)
  {
    var t' := t + 1;
    forall i: nat ensures ScalarStands(h, i, f, t') <==> ScalarStands(h, i, f, t) { ScalarStep(h, i, f, t); }
  }

  lemma ScalarCleared(h: seq<Call>, t: nat, f: Field)
    requires t < |h| && OverridesScalar(h[t].command, f) && !h[t].command.SetScalar?
    ensures ScalarOk(h, t + 1, f, None)
  {
    var t' := t + 1;
    forall i: nat ensures !ScalarStands(h, i, f, t') { ScalarStep(h, i, f, t); }
  }

  lemma ScalarWritten(h: seq<Call>, t: nat, f: Field, v: nat)
    requires t < |h| && h[t].command == SetScalar(f, v)
    ensures ScalarOk(h, t + 1, f, Some(Setting(v, h[t].event)))
  {
    var t' := t + 1;
    assert ScalarStands(h, t, f, t');
  }

  lemma ArrayStays(h: seq<Call>, t: nat, f: Field, a: Option<DynamicArray>)
    requires t < |h| && ArrayOk(h, t, f, a)
    requires match h[t].command
             case BindPipeline(p) =>
               a.Some? ==> p.Some? && !IsStatic(p.value, f) && !(a.value.withCount && f in p.value.dynamic)
             case SetArray(g, _, _, _) => g != f
             case _ => true
    ensures ArrayOk(h, t + 1, f, a)
  {
    var t' := t + 1;
    forall i: nat, k: nat ensures IndexStands(h, i, f, k, t') <==> IndexStands(h, i, f, k, t) {
      IndexStep(h, i, f, k, t);
      if a.Some? && IndexStands(h, i, f, k, t) { EntrySetter(h, t, f, k, a.value, i); }
    }
    if a.Some? {
      forall k: nat ensures EntryOk(h, t', f, k, a.value) { assert EntryOk(h, t, f, k, a.value); }
    }
  }

  lemma EntrySetter(h: seq<Call>, t: nat, f: Field, k: nat, a: DynamicArray, i: nat)
    requires t <= |h| && EntryOk(h, t, f, k, a) && IndexStands(h, i, f, k, t)
    ensures k in a.values && a.values[k] == WrittenAt(h[i], k) && h[i].command.withCount == a.withCount
    ensures a.withCount ==> |h[i].command.values| == a.count
  {
    var j: nat :| IndexStands(h, j, f, k, t) && a.values[k] == WrittenAt(h[j], k) &&
                  h[j].command.withCount == a.withCount && (a.withCount ==> |h[j].command.values| == a.count);
    IndexUnique(h, i, j, f, k, t);
  }

  lemma ArrayCleared(h: seq<Call>, t: nat, f: Field, a: Option<DynamicArray>)
    requires t < |h| && ArrayOk(h, t, f, a) && h[t].command.BindPipeline?
    requires var p := h[t].command.pipeline;
             p.None? || IsStatic(p.value, f) || (a.Some? && a.value.withCount && f in p.value.dynamic)
    ensures ArrayOk(h, t + 1, f, None)
  {
    var t' := t + 1;
    forall i: nat, k: nat ensures !IndexStands(h, i, f, k, t') {
      IndexStep(h, i, f, k, t);
      if a.Some? && IndexStands(h, i, f, k, t) { EntrySetter(h, t, f, k, a.value, i); }
    }
  }

  /** The array a setter starts from: a WithCount setter and a change of setter start afresh. */
  function Base(a: Option<DynamicArray>, withCount: bool, count: nat): DynamicArray {
    if withCount || a.None? || a.value.withCount != withCount
    then DynamicArray(withCount, if withCount then count else 0, map[])
    else a.value
  }

  lemma ArrayWritten(h: seq<Call>, t: nat, f: Field, a: Option<DynamicArray>, r: DynamicArray)
    requires t < |h| && ArrayOk(h, t, f, a) && h[t].command.SetArray? && h[t].command.array_ == f
    requires var c := h[t].command;
             var b := Base(a, c.withCount, |c.values|);
             && |c.values| > 0 && (c.withCount ==> c.first == 0)
             && r.withCount == b.withCount && r.count == b.count
             && forall k: nat :: if Covers(c, f, k) then k in r.values && r.values[k] == WrittenAt(h[t], k)
                                 else (k in r.values <==> k in b.values) && (k in b.values ==> r.values[k] == b.values[k])
    ensures ArrayOk(h, t + 1, f, Some(r))
  {
    var t' := t + 1;
    var c := h[t].command;
    assert c.first in r.values by { assert Covers(c, f, c.first); }
    forall k: nat ensures EntryOk(h, t', f, k, r) { EntryWritten(h, t, f, k, a, r); }
    if c.withCount {
      forall k: nat ensures k in r.values <==> k < r.count { assert Covers(c, f, k) <==> k < r.count; }
    }
  }

  lemma EntryWritten(h: seq<Call>, t: nat, f: Field, k: nat, a: Option<DynamicArray>, r: DynamicArray)
    requires t < |h| && ArrayOk(h, t, f, a) && h[t].command.SetArray? && h[t].command.array_ == f
    requires var c := h[t].command;
             var b := Base(a, c.withCount, |c.values|);
             && |c.values| > 0 && (c.withCount ==> c.first == 0)
             && r.withCount == b.withCount && r.count == b.count
             && if Covers(c, f, k) then k in r.values && r.values[k] == WrittenAt(h[t], k)
                else (k in r.values <==> k in b.values) && (k in b.values ==> r.values[k] == b.values[k])
    ensures EntryOk(h, t + 1, f, k, r)
  {
    var t' := t + 1;
    var c := h[t].command;
    IndexStep(h, t, f, k, t);
    if Covers(c, f, k) {
      assert IndexStands(h, t, f, k, t');
    } else {
      forall i: nat
        ensures IndexStands(h, i, f, k, t') <==> IndexStands(h, i, f, k, t) && !c.withCount && !h[i].command.withCount
      {
        IndexStep(h, i, f, k, t);
      }
      if a.Some? {
        assert EntryOk(h, t, f, k, a.value);
        forall i: nat | IndexStands(h, i, f, k, t) ensures h[i].command.withCount == a.value.withCount {
          EntrySetter(h, t, f, k, a.value, i);
        }
      }
    }
  }

  // ----- Rows -----

  lemma ScalarRowOk(h: seq<Call>, t: nat, f: Field, s: Option<Setting>)
    requires t <= |h| && ScalarOk(h, t, f, s)
    ensures ScalarRow(h, t, f, if s.Some? then Recorded([s.value]) else Missing)
    ensures !IsArray(f) ==> (SetSinceBind(h, t, f) <==> s.Some?)
  {
    if s.Some? {
      var i: nat :| ScalarStands(h, i, f, t) && s.value == Setting(h[i].command.value, h[i].event);
      forall j: nat | ScalarStands(h, j, f, t) ensures j == i { ScalarUnique(h, i, j, f, t); }
    }
  }

  lemma ArraySince(h: seq<Call>, t: nat, f: Field, a: Option<DynamicArray>)
    requires t <= |h| && ArrayOk(h, t, f, a) && IsArray(f)
    ensures SetSinceBind(h, t, f) <==> a.Some?
  {
    if a.Some? {
      var k :| k in a.value.values;
      assert EntryOk(h, t, f, k, a.value);
    }
  }

  lemma IndexSetIff(h: seq<Call>, t: nat, f: Field, a: Option<DynamicArray>, withCount: bool, k: nat)
    requires t <= |h| && ArrayOk(h, t, f, a)
    ensures IndexSet(h, t, f, withCount, k) <==> a.Some? && a.value.withCount == withCount && k in a.value.values
  {
    if a.Some? {
      assert EntryOk(h, t, f, k, a.value);
      if IndexSet(h, t, f, withCount, k) {
        var i: nat :| IndexStands(h, i, f, k, t) && h[i].command.withCount == withCount;
        EntrySetter(h, t, f, k, a.value, i);
      }
    }
  }

  /** The length the draw goes by. */
  function LengthOf(a: Option<DynamicArray>, p: Pipeline, f: Field): nat {
    if f in p.withCount then (if a.Some? then a.value.count else 0) else Count(p, f)
  }

  predicate Filled(a: Option<DynamicArray>, p: Pipeline, f: Field) {
    && a.Some? && a.value.withCount == (f in p.withCount) && 0 < LengthOf(a, p, f) <= ARRAY_LIMIT
    && forall k :: 0 <= k < LengthOf(a, p, f) ==> k in a.value.values
  }

  lemma FilledRow(h: seq<Call>, t: nat, p: Pipeline, f: Field, a: Option<DynamicArray>, settings: seq<Setting>)
    requires t <= |h| && ArrayOk(h, t, f, a) && Filled(a, p, f) && |settings| == LengthOf(a, p, f)
    requires forall k :: 0 <= k < |settings| ==> settings[k] == a.value.values[k]
    ensures ArrayRow(h, t, p, f, Recorded(settings))
  {
    var n := |settings|;
    forall k: nat | k < n ensures IndexSet(h, t, f, f in p.withCount, k) { IndexSetIff(h, t, f, a, f in p.withCount, k); }
    forall i: nat, k: nat | k < n && IndexStands(h, i, f, k, t) ensures settings[k] == WrittenAt(h[i], k) {
      EntrySetter(h, t, f, k, a.value, i);
    }
    forall i: nat | IndexStands(h, i, f, 0, t) && h[i].command.withCount ensures f in p.withCount ==> n == |h[i].command.values| {
      EntrySetter(h, t, f, 0, a.value, i);
    }
  }

  lemma MissingRow(h: seq<Call>, t: nat, p: Pipeline, f: Field, a: Option<DynamicArray>)
    requires t <= |h| && ArrayOk(h, t, f, a) && !Filled(a, p, f)
    ensures ArrayRow(h, t, p, f, Missing)
  {
    forall n: nat | ArrayLength(h, t, p, f, n) ensures !Complete(h, t, f, f in p.withCount, n) {
      if Complete(h, t, f, f in p.withCount, n) {
        assert IndexSet(h, t, f, f in p.withCount, 0);
        IndexSetIff(h, t, f, a, f in p.withCount, 0);
        var i: nat :| IndexStands(h, i, f, 0, t) && h[i].command.withCount == (f in p.withCount);
        EntrySetter(h, t, f, 0, a.value, i);
        assert n == LengthOf(a, p, f);
        forall k: nat | k < n ensures k in a.value.values {
          assert IndexSet(h, t, f, f in p.withCount, k);
          IndexSetIff(h, t, f, a, f in p.withCount, k);
        }
        assert false;
      }
    }
  }

  // ----- The recorder -----

  const FIELDS: set<Field> := {DepthTest, DepthWrite, DepthCompare, CullMode, FrontFace, Viewports, Scissors}

  lemma AllFields(f: Field)
    ensures f in FIELDS
  {
    match f {
      case DepthTest =>
      case _ =>
    }
  }

  class Recorder {
    const calls: seq<Call>
    const readback: bool
    var at: nat
    var labels: seq<string>
    var pass: Option<Pass>
    var current: Current
    var indexBound: bool
    var scalars: map<Field, Setting>
    var arrays: map<Field, DynamicArray>
    var events: set<nat>
    var draws: seq<DrawRecord>
    ghost var opens: seq<nat>

    ghost predicate ScopesOk(t: nat)
      requires t <= |calls|
      reads `labels, `opens
    {
      && OpenLabels(calls, t, opens, labels) && Nested(calls, t, opens)
      && Depth(calls, 0, t) == |labels| == |opens| && |labels| <= LABEL_DEPTH
    }

    ghost predicate SettingsOk(t: nat)
      requires t <= |calls|
      reads `scalars, `arrays
    {
      && (forall f :: ScalarOk(calls, t, f, Look(scalars, f)))
      && (forall f :: ArrayOk(calls, t, f, Look(arrays, f)))
    }

    ghost predicate BoundOk(t: nat)
      requires t <= |calls|
      reads `pass, `current, `indexBound
    {
      pass == PassAt(calls, t) && current == PipelineAt(calls, t) && indexBound == IndexBound(calls, t)
    }

    ghost predicate DrawsOk(t: nat)
      requires t <= |calls|
      reads `draws
    {
      && |draws| == |DrawPlaces(calls, t)| <= DRAW_LIMIT
      && forall k :: 0 <= k < |draws| ==>
                       DrawPlaces(calls, t)[k] < |calls| && DrawOk(calls, DrawPlaces(calls, t)[k], draws[k])
    }

    ghost predicate EventsOk(t: nat)
      requires t <= |calls|
      reads `events
    {
      && DistinctEvents(calls, t) && (forall e :: e in events <==> exists i :: 0 <= i < t && calls[i].event == e)
      && (forall i :: 0 <= i < t ==> StepOk(calls, i, readback))
    }

    ghost predicate Valid()
      reads this
    {
      at <= |calls| && ScopesOk(at) && SettingsOk(at) && BoundOk(at) && DrawsOk(at) && EventsOk(at)
    }

    constructor (calls: seq<Call>, readback: bool)
      ensures Valid() && at == 0 && this.calls == calls && this.readback == readback
    {
      this.calls, this.readback := calls, readback;
      at, labels, pass, current, indexBound := 0, [], None, NeverBound, false;
      scalars, arrays, events, draws, opens := map[], map[], {}, [], [];
    }

    /** The checks of the command at hand. */
    method Check() returns (ok: bool)
      requires Valid() && at < |calls|
      ensures ok <==> StepOk(calls, at, readback)
    {
      if !calls[at].qualified { return false; }
      match calls[at].command
      case BeginRecording => ok := at == 0;
      case EndRecording => ok := at + 1 == |calls| && pass.None? && labels == [];
      case BeginLabel(_) => ok := |labels| < LABEL_DEPTH;
      case EndLabel => ok := labels != [];
      case BeginPass(_) => ok := pass.None?;
      case EndPass(rendering) => ok := pass.Some? && pass.value.Rendering? == rendering;
      case SetScalar(f, _) => ok := !IsArray(f);
      case SetArray(f, withCount, first, values) =>
        ok := IsArray(f) && |values| > 0 && |values| <= ARRAY_LIMIT && first + |values| <= ARRAY_LIMIT && (withCount ==> first == 0);
      case Draw(indexed) => ok := pass.Some? && (!indexed || indexBound);
      case Readback => ok := readback && pass.None?;
      case _ => ok := true;
    }

    method Labels()
      requires at < |calls| && ScopesOk(at) && StepOk(calls, at, readback)
      modifies `labels, `opens
      ensures ScopesOk(at + 1)
    {
      hide OpenLabels, Nested;
      match calls[at].command
      case BeginLabel(text) =>
        LabelBegins(calls, at, opens, labels);
        labels, opens := labels + [text], opens + [at];
      case EndLabel =>
        LabelEnds(calls, at, opens, labels);
        labels, opens := labels[..|labels| - 1], opens[..|opens| - 1];
      case _ => LabelsStay(calls, at, opens, labels);
    }

    /** The active pass, the bound pipeline and the index buffer. */
    method Bindings()
      requires at < |calls| && BoundOk(at) && StepOk(calls, at, readback)
      modifies `pass, `current, `indexBound
      ensures BoundOk(at + 1)
    {
      match calls[at].command
      case BeginPass(p) => pass := Some(p);
      case EndPass(_) => pass := None;
      case BindPipeline(p) => current := if p.Some? then Bound(p.value) else Unqualified;
      case BindIndex => indexBound := true;
      case _ =>
    }

    /** A pipeline bind drops the settings that the new pipeline makes void. */
    method Bind(p: Option<Pipeline>)
      requires at < |calls| && SettingsOk(at) && calls[at].command == BindPipeline(p)
      modifies `scalars, `arrays
      ensures SettingsOk(at + 1)
    {
      hide StepOk, ScalarOk, ArrayOk;
      ghost var s, a := scalars, arrays;
      if p.None? {
        scalars, arrays := map[], map[];
      } else {
        scalars := map f | f in scalars && !IsStatic(p.value, f) :: scalars[f];
        arrays := map f | f in arrays && !IsStatic(p.value, f) && !(arrays[f].withCount && f in p.value.dynamic) :: arrays[f];
      }
      forall f ensures ScalarOk(calls, at + 1, f, Look(scalars, f)) && ArrayOk(calls, at + 1, f, Look(arrays, f)) {
        assert ScalarOk(calls, at, f, Look(s, f)) && ArrayOk(calls, at, f, Look(a, f));
        if OverridesScalar(calls[at].command, f) { ScalarCleared(calls, at, f); } else { ScalarStays(calls, at, f, Look(s, f)); }
        if Look(arrays, f).Some? { ArrayStays(calls, at, f, Look(a, f)); }
        else if Look(a, f).Some? || p.None? || IsStatic(p.value, f) { ArrayCleared(calls, at, f, Look(a, f)); }
        else { ArrayStays(calls, at, f, None); }
      }
    }

    method WriteScalar(f: Field, v: nat)
      requires at < |calls| && SettingsOk(at) && calls[at].command == SetScalar(f, v)
      modifies `scalars
      ensures SettingsOk(at + 1)
    {
      hide ArrayOk;
      ghost var s := scalars;
      scalars := scalars[f := Setting(v, calls[at].event)];
      forall g ensures ScalarOk(calls, at + 1, g, Look(scalars, g)) && ArrayOk(calls, at + 1, g, Look(arrays, g)) {
        assert ScalarOk(calls, at, g, Look(s, g)) && ArrayOk(calls, at, g, Look(arrays, g));
        if g == f { ScalarWritten(calls, at, f, v); } else { ScalarStays(calls, at, g, Look(s, g)); }
        ArrayStays(calls, at, g, Look(arrays, g));
      }
    }

    method WriteArray(f: Field, withCount: bool, first: nat, values: seq<nat>)
      requires at < |calls| && SettingsOk(at) && calls[at].command == SetArray(f, withCount, first, values)
      requires StepOk(calls, at, readback)
      modifies `arrays
      ensures SettingsOk(at + 1)
    {
      ghost var a := arrays;
      var state := Base(Look(arrays, f), withCount, |values|);
      ghost var base := state;
      for n := 0 to |values|
        invariant state.withCount == base.withCount && state.count == base.count
        invariant forall k: nat ::
                    if first <= k < first + n then k in state.values && state.values[k] == WrittenAt(calls[at], k)
                    else (k in state.values <==> k in base.values) && (k in base.values ==> state.values[k] == base.values[k])
      {
        state := state.(values := state.values[first + n := Setting(values[n], calls[at].event)]);
      }
      arrays := arrays[f := state];
      forall g ensures ScalarOk(calls, at + 1, g, Look(scalars, g)) && ArrayOk(calls, at + 1, g, Look(arrays, g)) {
        assert ScalarOk(calls, at, g, Look(scalars, g)) && ArrayOk(calls, at, g, Look(a, g));
        ScalarStays(calls, at, g, Look(scalars, g));
        if g == f { ArrayWritten(calls, at, f, Look(a, f), state); } else { ArrayStays(calls, at, g, Look(a, g)); }
      }
    }

    lemma SettingsStay()
      requires at < |calls| && SettingsOk(at)
      requires match calls[at].command
               case BindPipeline(_) => false case SetScalar(_, _) => false case SetArray(_, _, _, _) => false case _ => true
      ensures SettingsOk(at + 1)
    {
      forall f ensures ScalarOk(calls, at + 1, f, Look(scalars, f)) && ArrayOk(calls, at + 1, f, Look(arrays, f)) {
        assert ScalarOk(calls, at, f, Look(scalars, f)) && ArrayOk(calls, at, f, Look(arrays, f));
        ScalarStays(calls, at, f, Look(scalars, f));
        ArrayStays(calls, at, f, Look(arrays, f));
      }
    }

    method Settings()
      requires at < |calls| && SettingsOk(at) && StepOk(calls, at, readback)
      modifies `scalars, `arrays
      ensures SettingsOk(at + 1)
    {
      match calls[at].command
      case BindPipeline(p) => Bind(p);
      case SetScalar(f, v) => WriteScalar(f, v);
      case SetArray(f, withCount, first, values) => WriteArray(f, withCount, first, values);
      case _ => SettingsStay();
    }

    /** The array row of a dynamic array. */
    method ArrayAt(p: Pipeline, f: Field) returns (row: Row)
      requires Valid() && at < |calls| && IsArray(f)
      ensures ArrayRow(calls, at, p, f, row)
    {
      ghost var a := Look(arrays, f);
      assert ArrayOk(calls, at, f, a);
      row := Missing;
      if f in arrays && arrays[f].withCount == (f in p.withCount) {
        var value := arrays[f];
        var count := if f in p.withCount then value.count else Count(p, f);
        if 0 < count <= ARRAY_LIMIT {
          var settings := [];
          while |settings| < count && |settings| in value.values
            invariant |settings| <= count
            invariant forall k :: 0 <= k < |settings| ==> k in value.values && settings[k] == value.values[k]
          {
            settings := settings + [value.values[|settings|]];
          }
          if |settings| == count {
            FilledRow(calls, at, p, f, a, settings);
            return Recorded(settings);
          }
        }
      }
      MissingRow(calls, at, p, f, a);
    }

    method RowAt(f: Field) returns (row: Row)
      requires Valid() && at < |calls|
      ensures RowOk(calls, at, f, row)
    {
      assert ScalarOk(calls, at, f, Look(scalars, f)) && ArrayOk(calls, at, f, Look(arrays, f));
      if !current.Bound? { return Unbound(current.NeverBound?); }
      var p := current.pipeline;
      if Some(p.target) != pass { return OtherPass; }
      if f in p.values && p.values[f].Unapplicable? { return Inapplicable; }
      if f in p.values && p.values[f].Undecodable? { return Unsupported; }
      ScalarRowOk(calls, at, f, Look(scalars, f));
      if IsArray(f) { ArraySince(calls, at, f, Look(arrays, f)); }
      if f in p.dynamic || f in p.withCount {
        if IsArray(f) {
          row := ArrayAt(p, f);
        } else {
          row := if f in scalars then Recorded([scalars[f]]) else Missing;
        }
      } else if (if IsArray(f) then f in arrays else f in scalars) {
        row := LateSetter;
      } else {
        row := if f in p.values then Fixed(p.values[f].value) else Unknown;
      }
    }

    method DrawHere() returns (d: DrawRecord)
      requires Valid() && at < |calls|
      ensures DrawOk(calls, at, d)
    {
      var state: map<Field, Row> := map[];
      var todo := FIELDS;
      while todo != {}
        invariant todo <= FIELDS && state.Keys == FIELDS - todo
        invariant forall f :: f in state ==> RowOk(calls, at, f, state[f])
        decreases todo
      {
        var f :| f in todo;
        var row := RowAt(f);
        state := state[f := row];
        todo := todo - {f};
      }
      d := DrawRecord(calls[at].event, labels, state);
      forall f: Field ensures f in FIELDS { AllFields(f); }
    }

    /** One command: refused, or applied to everything it concerns. */
    method Step() returns (ok: bool)
      requires Valid() && at < |calls|
      modifies this
      ensures ok <==>
              && StepOk(calls, old(at), readback) && DistinctEvents(calls, old(at) + 1)
              && |DrawPlaces(calls, old(at) + 1)| <= DRAW_LIMIT
      ensures ok ==> Valid() && at == old(at) + 1
    {
      var c := calls[at];
      if c.event in events { return false; }
      ok := Check();
      if !ok { return; }
      if c.command.Draw? {
        var d := DrawHere();
        AddDraw(d);
        if |draws| > DRAW_LIMIT { return false; }
      }
      Advance();
    }

    method AddDraw(d: DrawRecord)
      requires at < |calls| && DrawsOk(at) && calls[at].command.Draw? && DrawOk(calls, at, d)
      modifies `draws
      ensures draws == old(draws) + [d]
      ensures |draws| <= DRAW_LIMIT ==> DrawsOk(at + 1)
    {
      PlacesBelow(calls, at);
      draws := draws + [d];
    }

    method Advance()
      requires at < |calls| && StepOk(calls, at, readback) && calls[at].event !in events
      requires ScopesOk(at) && SettingsOk(at) && BoundOk(at) && EventsOk(at) && DrawsOk(at + 1)
      modifies `labels, `pass, `opens, `current, `scalars, `arrays, `indexBound, `events, `at
      ensures Valid() && at == old(at) + 1
    {
      hide StepOk, ScopesOk, SettingsOk, BoundOk, EventsOk, DrawsOk;
      Labels();
      Bindings();
      Settings();
      AddEvent();
      at := at + 1;
    }

    method AddEvent()
      requires at < |calls| && StepOk(calls, at, readback) && calls[at].event !in events && EventsOk(at)
      modifies `events
      ensures EventsOk(at + 1)
    {
      events := events + {calls[at].event};
      forall e ensures e in events <==> exists i :: 0 <= i < at + 1 && calls[i].event == e {
        if e == calls[at].event { assert calls[at].event == e; }
      }
    }
  }

  /** Main result: a recording is accepted exactly when it is legal, and then every draw, in order, reports for each
      field what the whole command history up to it says. */
  method RecordingDraws(calls: seq<Call>, readback: bool) returns (draws: Option<seq<DrawRecord>>)
    ensures draws.Some? <==> Legal(calls, readback)
    ensures draws.Some? ==>
              && |draws.value| == |DrawPlaces(calls, |calls|)|
              && forall k :: 0 <= k < |draws.value| ==>
                   var place := DrawPlaces(calls, |calls|)[k];
                   place < |calls| && calls[place].command.Draw? && DrawOk(calls, place, draws.value[k])
  {
    if |calls| < 2 || !calls[0].command.BeginRecording? || !calls[|calls| - 1].command.EndRecording? { return None; }
    var r := new Recorder(calls, readback);
    while r.at < |calls|
      invariant fresh(r) && r.Valid() && r.calls == calls && r.readback == readback
      decreases |calls| - r.at
    {
      ghost var t := r.at;
      PlacesGrow(calls, t + 1, |calls|);
      assert DistinctEvents(calls, |calls|) ==> DistinctEvents(calls, t + 1);
      var ok := r.Step();
      if !ok { return None; }
    }
    PlacesBelow(calls, |calls|);
    return Some(r.draws);
  }
}
