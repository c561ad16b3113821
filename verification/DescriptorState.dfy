/** Descriptor set bindings of one command recording: eight slots updated bind by bind, and a reading of
    the whole bind history that says what the slots mean at a draw.

    The rules are those of section 14.2.2 ("Pipeline Layouts", Pipeline Layout Compatibility) of the
    Vulkan 1.3 specification as the recorder applies them, slot by slot. */
module DescriptorState {
  import opened Prelude

  const SLOTS := 8
  const UINT32_MAX := 4294967295
  const MAX_DYNAMIC := 64

  /** A pipeline layout by the signatures of its push ranges and of its set layouts. */
  datatype Layout = Layout(name: string, push: string, sets: seq<string>)

  datatype LayoutBinding = LayoutBinding(binding: nat, dynamic: bool, count: nat)

  datatype Allocation = Allocation(name: string, setLayout: string, signature: string, bindings: seq<LayoutBinding>)

  datatype Offset = Offset(binding: nat, element: nat, value: nat, source: nat)

  /** The content of a slot; `bound` is absent once the slot has been disturbed. */
  datatype Binding = Binding(layout: Layout, bound: Option<string>, setLayout: string, offsets: seq<Offset>, event: nat)

  datatype BindPoint = Graphics | Compute | OtherPoint

  /** A recorded vkCmdBindDescriptorSets with its operands resolved; `None` marks what could not be. */
  datatype BindCall = BindCall(
    arity: nat, point: BindPoint, layout: Option<Layout>, first: nat, count: nat, dynamicCount: nat,
    sets: Option<seq<Option<Allocation>>>, offsets: Option<seq<nat>>, event: nat)

  datatype Reason = Arity | Point | NoLayout | Range | Operands | NoAllocation | Signature | MissingOffset | OffsetSize | ExtraOffsets

  // ----- Compatibility -----

  /** Two layouts agree up to set `n`: same push ranges, and the same layout for each set up to and including n. */
  ghost predicate SameUpTo(a: Layout, b: Layout, n: nat) {
    a.push == b.push && n < |a.sets| && n < |b.sets| && forall k :: 0 <= k <= n ==> a.sets[k] == b.sets[k]
  }

  lemma SamePrefix(a: seq<string>, b: seq<string>, n: nat)
    ensures n < |a| && n < |b| ==> (a[..n + 1] == b[..n + 1] <==> forall k :: 0 <= k <= n ==> a[k] == b[k])
  {
    if n < |a| && n < |b| && a[..n + 1] == b[..n + 1] {
      forall k | 0 <= k <= n ensures a[k] == b[k] { assert a[..n + 1][k] == b[..n + 1][k]; }
    }
  }

  /** The code's comparison of the two lists. */
  predicate Compatible(a: Layout, b: Layout, n: nat): (r: bool)
    ensures r <==> SameUpTo(a, b, n)
  {
    SamePrefix(a.sets, b.sets, n);
    a.push == b.push && n < |a.sets| && n < |b.sets| && a.sets[..n + 1] == b.sets[..n + 1]
  }

  lemma CompatibleChain(a: Layout, b: Layout, c: Layout, n: nat)
    requires Compatible(a, b, n)
    ensures Compatible(b, a, n)
    ensures Compatible(b, c, n) <==> Compatible(a, c, n)
    ensures Compatible(c, a, n) <==> Compatible(c, b, n)
  {
  }

  // ----- One elementary bind -----

  type Slots = s: seq<Option<Binding>> | |s| == SLOTS witness [None, None, None, None, None, None, None, None]

  function Disturbed(layout: Layout, event: nat): Binding {
    Binding(layout, None, "", [], event)
  }

  predicate Replaces(s: Slots, target: nat, layout: Layout)
    requires target < SLOTS
  {
    s[target].Some? && !Compatible(s[target].value.layout, layout, target)
  }

  /** One slot after a bind. */
  function SlotAfter(s: Slots, target: nat, b: Binding, k: nat): Option<Binding>
    requires target < SLOTS && k < SLOTS
  {
    if k == target then Some(b)
    else if s[k].None? then None
    else if k < target && !Compatible(s[k].value.layout, b.layout, k) then Some(Disturbed(b.layout, b.event))
    else if k > target && Replaces(s, target, b.layout) then Some(Disturbed(b.layout, b.event))
    else s[k]
  }

  function BindOne(s: Slots, target: nat, b: Binding): (r: Slots)
    requires target < SLOTS
    ensures forall k :: 0 <= k < SLOTS ==> r[k] == SlotAfter(s, target, b, k)
  {
    seq(SLOTS, k requires 0 <= k < SLOTS => SlotAfter(s, target, b, k))
  }

  // ----- The bind history and its reading -----

  datatype Bind = Bind(target: nat, binding: Binding)

  predicate BindOk(b: Bind) {
    b.target < SLOTS && b.target < |b.binding.layout.sets| && b.binding.bound.Some?
  }

  /** All elementary binds accepted so far, oldest first. */
  type History = h: seq<Bind> | forall i :: 0 <= i < |h| ==> BindOk(h[i])

  const Nothing: Slots := [None, None, None, None, None, None, None, None]

  ghost function StateAt(h: History, t: nat): Slots
    requires t <= |h|
  {
    if t == 0 then Nothing else BindOne(StateAt(h, t - 1), h[t - 1].target, h[t - 1].binding)
  }

  ghost predicate EverBound(h: History, m: nat, t: nat)
    requires t <= |h|
  {
    exists i :: 0 <= i < t && h[i].target == m
  }

  /** A bind decides under which layout a slot counts as last touched: a bind of that slot or of a higher
      one, or a bind of a lower slot that broke the bindings above it. */
  ghost predicate Governs(h: History, e: nat, m: nat)
    requires e < |h|
    decreases m, 1
  {
    h[e].target >= m || Breaks(h, e)
  }

  ghost predicate LastGovernor(h: History, e: nat, m: nat, t: nat)
    requires e < t <= |h|
    decreases m, 2
  {
    Governs(h, e, m) && forall f :: e < f < t ==> !Governs(h, f, m)
  }

  /** The bind replaces a slot that was last touched under a layout incompatible up to that slot. */
  ghost predicate Breaks(h: History, j: nat)
    requires j < |h|
    decreases h[j].target, 3
  {
    var m := h[j].target;
    && EverBound(h, m, j)
    && exists e :: 0 <= e < j && LastGovernor(h, e, m, j) && !SameUpTo(h[e].binding.layout, h[j].binding.layout, m)
  }

  /** The reading of the history: bind `i` still stands for slot `n`. */
  ghost predicate Stands(h: History, i: nat, n: nat, t: nat)
    requires i < t <= |h|
  {
    && h[i].target == n
    && forall j :: i < j < t ==>
         && h[j].target != n
         && (h[j].target > n ==> SameUpTo(h[i].binding.layout, h[j].binding.layout, n))
         && (h[j].target < n ==> !Breaks(h, j))
  }

  // ----- The slots agree with the reading -----

  lemma {:induction false} TouchedIffBound(h: History, m: nat, t: nat)
    requires m < SLOTS && t <= |h|
    ensures StateAt(h, t)[m].Some? <==> EverBound(h, m, t)
  {
    if t > 0 {
      TouchedIffBound(h, m, t - 1);
      if h[t - 1].target == m { assert EverBound(h, m, t); }
    }
  }

  predicate SameClass(a: Layout, b: Layout, m: nat) {
    a == b || Compatible(a, b, m)
  }

  lemma SameVerdict(a: Layout, b: Layout, c: Layout, m: nat)
    requires SameClass(a, b, m)
    ensures Compatible(a, c, m) <==> Compatible(b, c, m)
  {
    if a != b { CompatibleChain(a, b, c, m); }
  }

  /** A touched slot holds the layout of its last governor, or one compatible with it up to the slot. */
  lemma {:induction false} Governor(h: History, m: nat, t: nat) returns (e: nat)
    requires m < SLOTS && t <= |h| && StateAt(h, t)[m].Some?
    ensures e < t && LastGovernor(h, e, m, t)
    ensures SameClass(StateAt(h, t)[m].value.layout, h[e].binding.layout, m)
    decreases t, 0
  {
    var b := h[t - 1];
    BreaksIff(h, t - 1);
    if Governs(h, t - 1, m) {
      e := t - 1;
      if b.target > m && Compatible(StateAt(h, t - 1)[m].value.layout, b.binding.layout, m) {
        assert StateAt(h, t)[m] == StateAt(h, t - 1)[m];
      }
    } else {
      e := Governor(h, m, t - 1);
    }
  }

  lemma {:induction false} BreaksIff(h: History, j: nat)
    requires j < |h|
    ensures Breaks(h, j) <==> Replaces(StateAt(h, j), h[j].target, h[j].binding.layout)
    decreases j, 1
  {
    var m, k := h[j].target, h[j].binding.layout;
    TouchedIffBound(h, m, j);
    if StateAt(h, j)[m].Some? {
      var e := Governor(h, m, j);
      SameVerdict(StateAt(h, j)[m].value.layout, h[e].binding.layout, k, m);
      if Breaks(h, j) {
        var f :| 0 <= f < j && LastGovernor(h, f, m, j) && !Compatible(h[f].binding.layout, k, m);
        assert f == e by { assert Governs(h, f, m) && Governs(h, e, m); }
      }
    }
  }

  /** What one bind does to a bound slot, in the words of the reading. */
  lemma BoundAfter(h: History, n: nat, t: nat)
    requires n < SLOTS && 0 < t <= |h| && h[t - 1].target != n
    ensures var s, b := StateAt(h, t - 1)[n], h[t - 1];
            StateAt(h, t)[n].Some? && StateAt(h, t)[n].value.bound.Some? <==>
            s.Some? && s.value.bound.Some? &&
            (b.target > n ==> Compatible(s.value.layout, b.binding.layout, n)) && (b.target < n ==> !Breaks(h, t - 1))
    ensures StateAt(h, t)[n].Some? && StateAt(h, t)[n].value.bound.Some? ==> StateAt(h, t)[n] == StateAt(h, t - 1)[n]
  {
    hide Breaks, Governs, LastGovernor, EverBound, SameUpTo;
    BreaksIff(h, t - 1);
  }

  lemma {:induction false} StandsInSlot(h: History, i: nat, n: nat, t: nat)
    requires n < SLOTS && i < t <= |h| && Stands(h, i, n, t)
    ensures StateAt(h, t)[n] == Some(h[i].binding)
    decreases t
  {
    hide Breaks, Governs, LastGovernor, EverBound, Compatible, SameUpTo;
    if i < t - 1 {
      StandsInSlot(h, i, n, t - 1);
      BoundAfter(h, n, t);
    }
  }

  lemma {:induction false} SlotStands(h: History, n: nat, t: nat) returns (i: nat)
    requires n < SLOTS && t <= |h| && StateAt(h, t)[n].Some? && StateAt(h, t)[n].value.bound.Some?
    ensures i < t && Stands(h, i, n, t) && StateAt(h, t)[n] == Some(h[i].binding)
  {
    hide Breaks, Governs, LastGovernor, EverBound, Compatible, SameUpTo;
    if h[t - 1].target == n {
      i := t - 1;
    } else {
      BoundAfter(h, n, t);
      i := SlotStands(h, n, t - 1);
    }
  }

  /** The slot is reported with this binding for a draw under this layout. */
  predicate Qualified(s: Slots, draw: Layout, n: nat, b: Binding)
    requires n < SLOTS
  {
    s[n] == Some(b) && b.bound.Some? && Compatible(b.layout, draw, n)
  }

  /** Main result: a draw sees set `n` with a binding exactly when the last bind of slot n made it, under a layout
      compatible with the draw's up to n, no later bind of a higher slot was incompatible up to n, and no
      later bind of a lower slot broke the bindings above it. */
  lemma DrawSeesHistory(h: History, draw: Layout, n: nat, b: Binding)
    requires n < SLOTS
    ensures Qualified(StateAt(h, |h|), draw, n, b) <==>
            exists i :: 0 <= i < |h| && Stands(h, i, n, |h|) && h[i].binding == b && SameUpTo(b.layout, draw, n)
  {
    hide Breaks, Governs, LastGovernor, EverBound, SameUpTo;
    if Qualified(StateAt(h, |h|), draw, n, b) {
      var i := SlotStands(h, n, |h|);
    }
    if i :| 0 <= i < |h| && Stands(h, i, n, |h|) && h[i].binding == b && SameUpTo(b.layout, draw, n) {
      StandsInSlot(h, i, n, |h|);
    }
  }

  /** The slot still holds a set, under a layout that the draw's does not agree with. */
  predicate Unqualified(s: Slots, draw: Layout, n: nat)
    requires n < SLOTS
  {
    s[n].Some? && s[n].value.bound.Some? && !Compatible(s[n].value.layout, draw, n)
  }

  lemma DrawMissesHistory(h: History, draw: Layout, n: nat)
    requires n < SLOTS
    ensures Unqualified(StateAt(h, |h|), draw, n) <==>
            exists i :: 0 <= i < |h| && Stands(h, i, n, |h|) && !SameUpTo(h[i].binding.layout, draw, n)
  {
    hide Breaks, Governs, LastGovernor, EverBound, SameUpTo;
    if Unqualified(StateAt(h, |h|), draw, n) {
      var i := SlotStands(h, n, |h|);
    }
    if i :| 0 <= i < |h| && Stands(h, i, n, |h|) && !SameUpTo(h[i].binding.layout, draw, n) {
      StandsInSlot(h, i, n, |h|);
    }
  }

  // ----- Dynamic offsets -----

  function Elements(b: LayoutBinding, count: nat): (r: seq<(nat, nat)>)
    ensures |r| == count && forall i :: 0 <= i < count ==> r[i] == (b.binding, i)
  {
    seq(count, (i: nat) requires i < count => (b.binding, i))
  }

  /** The (binding, element) pairs that take a dynamic offset, in the order the offsets are listed. */
  function DynamicSlots(bs: seq<LayoutBinding>, k: nat): seq<(nat, nat)>
    requires k <= |bs|
  {
    if k == 0 then []
    else DynamicSlots(bs, k - 1) + if bs[k - 1].dynamic then Elements(bs[k - 1], bs[k - 1].count) else []
  }

  lemma {:induction false} DynamicGrows(bs: seq<LayoutBinding>, k: nat, n: nat)
    requires k <= n <= |bs|
    ensures |DynamicSlots(bs, k)| <= |DynamicSlots(bs, n)|
  {
    if k < n { DynamicGrows(bs, k, n - 1); }
  }

  function Dynamic(bs: seq<LayoutBinding>): seq<(nat, nat)> {
    DynamicSlots(bs, |bs|)
  }

  predicate OffsetsFit(n: nat, offsets: seq<nat>, start: nat) {
    start + n <= |offsets| && forall i :: start <= i < start + n ==> offsets[i] <= UINT32_MAX
  }

  /** The offsets of one set: its dynamic descriptors paired with its stretch of the list. */
  predicate Pairs(slots: seq<(nat, nat)>, offsets: seq<nat>, start: nat, r: seq<Offset>) {
    && start + |slots| <= |offsets| && |r| == |slots|
    && forall i :: 0 <= i < |r| ==> r[i] == Offset(slots[i].0, slots[i].1, offsets[start + i], start + i)
  }

  method ReadOffsets(bs: seq<LayoutBinding>, offsets: seq<nat>, start: nat)
    returns (error: Option<Reason>, dynamic: seq<Offset>)
    requires start <= |offsets|
    ensures error.None? <==> OffsetsFit(|Dynamic(bs)|, offsets, start)
    ensures error.None? ==> Pairs(Dynamic(bs), offsets, start, dynamic)
    ensures error.Some? ==>
              if error.value.MissingOffset? then start + |Dynamic(bs)| > |offsets|
              else error.value.OffsetSize? && exists i :: start <= i < |offsets| && offsets[i] > UINT32_MAX
  {
    dynamic := [];
    for k := 0 to |bs|
      invariant Pairs(DynamicSlots(bs, k), offsets, start, dynamic)
      invariant OffsetsFit(|dynamic|, offsets, start)
    {
      DynamicGrows(bs, k + 1, |bs|);
      if bs[k].dynamic {
        for element := 0 to bs[k].count
          invariant Pairs(DynamicSlots(bs, k) + Elements(bs[k], element), offsets, start, dynamic)
          invariant OffsetsFit(|dynamic|, offsets, start)
        {
          if start + |dynamic| >= |offsets| { return Some(MissingOffset), dynamic; }
          var value := offsets[start + |dynamic|];
          if value > UINT32_MAX { return Some(OffsetSize), dynamic; }
          dynamic := dynamic + [Offset(bs[k].binding, element, value, start + |dynamic|)];
        }
      }
    }
    return None, dynamic;
  }

  // ----- A whole bind command -----

  predicate InRange(call: BindCall) {
    && call.layout.Some? && 0 < call.count <= SLOTS && call.first < SLOTS && call.count <= SLOTS - call.first
    && call.first + call.count <= |call.layout.value.sets| && call.dynamicCount <= MAX_DYNAMIC
  }

  function GivenOffsets(call: BindCall): Option<seq<nat>> {
    if call.dynamicCount == 0 then Some([]) else call.offsets
  }

  predicate Decoded(call: BindCall) {
    && InRange(call)
    && call.sets.Some? && |call.sets.value| == call.count
    && GivenOffsets(call).Some? && |GivenOffsets(call).value| == call.dynamicCount
  }

  predicate SetFits(call: BindCall, n: nat)
    requires Decoded(call) && n < call.count
  {
    call.sets.value[n].Some? && call.sets.value[n].value.signature == call.layout.value.sets[call.first + n]
  }

  /** Offsets taken by the first `n` sets. */
  function OffsetsBefore(sets: seq<Option<Allocation>>, n: nat): nat
    requires n <= |sets|
  {
    if n == 0 then 0
    else OffsetsBefore(sets, n - 1) + if sets[n - 1].Some? then |Dynamic(sets[n - 1].value.bindings)| else 0
  }

  lemma {:induction false} OffsetsGrow(sets: seq<Option<Allocation>>, k: nat, n: nat)
    requires k <= n <= |sets|
    ensures OffsetsBefore(sets, k) <= OffsetsBefore(sets, n)
  {
    if k < n { OffsetsGrow(sets, k, n - 1); }
  }

  predicate SetsFit(call: BindCall, n: nat)
    requires Decoded(call) && n <= call.count
  {
    forall k :: 0 <= k < n ==> SetFits(call, k)
  }

  /** Every operand resolves, every allocated layout is the expected one, and the dynamic offsets are exactly used up. */
  predicate Accepts(call: BindCall) {
    && call.arity == 8 && call.point.Graphics? && Decoded(call) && SetsFit(call, call.count)
    && OffsetsBefore(call.sets.value, call.count) == call.dynamicCount
    && OffsetsFit(call.dynamicCount, GivenOffsets(call).value, 0)
  }

  /** The n-th set of the command as an elementary bind. */
  predicate IsBind(call: BindCall, n: nat, b: Bind)
    requires Decoded(call) && n < call.count && SetFits(call, n)
  {
    var a := call.sets.value[n].value;
    && b.target == call.first + n
    && b.binding.layout == call.layout.value && b.binding.bound == Some(a.name) && b.binding.setLayout == a.setLayout
    && b.binding.event == call.event
    && Pairs(Dynamic(a.bindings), GivenOffsets(call).value, OffsetsBefore(call.sets.value, n), b.binding.offsets)
  }

  predicate IsBinds(call: BindCall, n: nat, bs: seq<Bind>)
    requires Decoded(call) && n <= call.count && SetsFit(call, n)
  {
    |bs| == n && forall k :: 0 <= k < n ==> SetFits(call, k) && IsBind(call, k, bs[k])
  }

  /** The n-th set of a decoded command is the first one that cannot be bound, for this reason. */
  predicate SetWrong(call: BindCall, n: nat, r: Reason)
    requires Decoded(call) && n < call.count
  {
    var sets, offsets := call.sets.value, GivenOffsets(call).value;
    && SetsFit(call, n) && OffsetsFit(OffsetsBefore(sets, n), offsets, 0)
    && match r
       case NoAllocation => sets[n].None?
       case Signature => sets[n].Some? && !SetFits(call, n)
       case MissingOffset => SetFits(call, n) && OffsetsBefore(sets, n + 1) > |offsets|
       case OffsetSize => SetFits(call, n) && exists i :: OffsetsBefore(sets, n) <= i < |offsets| && offsets[i] > UINT32_MAX
       case _ => false
  }

  /** The reason a refused command leaves behind: the first of the code's checks that it fails. */
  ghost predicate Explains(call: BindCall, r: Reason) {
    if call.arity != 8 then r.Arity?
    else if !call.point.Graphics? then r.Point?
    else if call.layout.None? then r.NoLayout?
    else if !InRange(call) then r.Range?
    else if !Decoded(call) then r.Operands?
    else if r.ExtraOffsets? then SetsFit(call, call.count) && OffsetsBefore(call.sets.value, call.count) < call.dynamicCount
    else exists n: nat :: n < call.count && SetWrong(call, n, r)
  }

  /** Validates a decoded command as a whole and turns it into its elementary binds. */
  method Resolve(call: BindCall) returns (error: Option<Reason>, bs: seq<Bind>)
    requires call.arity == 8 && call.point.Graphics? && Decoded(call)
    ensures error.None? <==> Accepts(call)
    ensures error.None? ==> IsBinds(call, call.count, bs)
    ensures error.Some? ==> Explains(call, error.value)
  {
    var sets, offsets := call.sets.value, GivenOffsets(call).value;
    var used: nat := 0;
    bs := [];
    for n := 0 to call.count
      invariant SetsFit(call, n) && IsBinds(call, n, bs)
      invariant used == OffsetsBefore(sets, n) && OffsetsFit(used, offsets, 0)
    {
      if sets[n].None? { assert !SetFits(call, n) && SetWrong(call, n, NoAllocation); return Some(NoAllocation), bs; }
      var a := sets[n].value;
      if a.signature != call.layout.value.sets[call.first + n] {
        assert !SetFits(call, n) && SetWrong(call, n, Signature);
        return Some(Signature), bs;
      }
      var wrong, dynamic := ReadOffsets(a.bindings, offsets, used);
      OffsetsGrow(sets, n + 1, call.count);
      if wrong.Some? {
        assert SetWrong(call, n, wrong.value);
        return wrong, bs;
      }
      var b := Bind(call.first + n, Binding(call.layout.value, Some(a.name), a.setLayout, dynamic, call.event));
      assert SetFits(call, n) && IsBind(call, n, b);
      bs := bs + [b];
      used := used + |dynamic|;
    }
    if used != |offsets| { return Some(ExtraOffsets), bs; }
    return None, bs;
  }

  // ----- The recorder -----

  datatype Row = NotApplicable | NeverBound | WasDisturbed | Incompatible | Recorded(binding: Binding)

  datatype Report = Unsupported(reason: Reason) | NoSets | Rows(rows: seq<Row>, complete: bool)

  lemma StatePrefix(h: History, g: History, t: nat)
    requires t <= |h| && h <= g
    ensures StateAt(h, t) == StateAt(g, t)
  {
    if t > 0 { StatePrefix(h, g, t - 1); }
  }

  class DescriptorState {
    const sets: array<Option<Binding>>
    var unsupported: Option<Reason>
    ghost var history: History

    ghost predicate Valid()
      reads this, sets
    {
      sets.Length == SLOTS && sets[..] == StateAt(history, |history|)
    }

    constructor ()
      ensures Valid() && fresh(sets) && history == [] && unsupported == None
    {
      sets := new Option<Binding>[SLOTS](i => None);
      unsupported, history := None, [];
      new;
      assert sets[..] == Nothing;
    }

    /** One elementary bind in place: lower slots, then higher slots, then the slot itself. */
    method BindSlot(b: Bind)
      requires Valid() && BindOk(b)
      modifies sets, `history
      ensures Valid() && history == old(history) + [b]
    {
      ghost var s: Slots := sets[..];
      var target, binding := b.target, b.binding;
      for lower := 0 to target
        modifies sets
        invariant forall k :: 0 <= k < SLOTS ==> sets[k] == if k < lower then SlotAfter(s, target, binding, k) else s[k]
      {
        if sets[lower].Some? && !Compatible(sets[lower].value.layout, binding.layout, lower) {
          sets[lower] := Some(Disturbed(binding.layout, binding.event));
        }
      }
      if sets[target].Some? && !Compatible(sets[target].value.layout, binding.layout, target) {
        for upper := target + 1 to SLOTS
          modifies sets
          invariant forall k :: 0 <= k < SLOTS ==>
                                  sets[k] == if k < upper && k != target then SlotAfter(s, target, binding, k) else s[k]
        {
          if sets[upper].Some? { sets[upper] := Some(Disturbed(binding.layout, binding.event)); }
        }
      }
      sets[target] := Some(binding);
      assert sets[..] == BindOne(s, target, binding);
      StatePrefix(history, history + [b], |history|);
      history := history + [b];
    }

    /** A recorded command: applied as a whole, or refused as a whole and for good. */
    method Record(call: BindCall)
      requires Valid()
      modifies this, sets
      ensures Valid() && old(history) <= history
      ensures old(unsupported).Some? || (call.arity == 8 && call.point.Compute?) ==>
                history == old(history) && unsupported == old(unsupported)
      ensures old(unsupported).None? && !(call.arity == 8 && call.point.Compute?) ==>
                if Accepts(call)
                then unsupported.None? && IsBinds(call, call.count, history[|old(history)|..])
                else unsupported.Some? && history == old(history) && Explains(call, unsupported.value)
    {
      if unsupported.Some? { return; }
      if call.arity != 8 { unsupported := Some(Arity); return; }
      if call.point.Compute? { return; }
      if !call.point.Graphics? { unsupported := Some(Point); return; }
      if call.layout.None? { unsupported := Some(NoLayout); return; }
      if call.count == 0 || call.count > SLOTS || call.first >= SLOTS || call.count > SLOTS - call.first ||
         call.first + call.count > |call.layout.value.sets| || call.dynamicCount > MAX_DYNAMIC {
        unsupported := Some(Range);
        return;
      }
      // The list of offsets is not looked at when it is announced as empty.
      if call.sets.None? || |call.sets.value| != call.count ||
         (call.dynamicCount != 0 && (call.offsets.None? || |call.offsets.value| != call.dynamicCount)) {
        unsupported := Some(Operands);
        return;
      }
      var error, bs := Resolve(call);
      if error.Some? { unsupported := error; return; }
      ghost var h := history;
      for n := 0 to call.count
        invariant Valid() && history == h + bs[..n] && unsupported.None?
      {
        assert IsBind(call, n, bs[n]);
        BindSlot(bs[n]);
        assert bs[..n] + [bs[n]] == bs[..n + 1];
      }
      assert bs[..call.count] == bs && history[|h|..] == bs;
    }

    /** What a draw under this layout may rely on. `empty` says which set layouts have no bindings. */
    method AtDraw(draw: Option<Layout>, empty: seq<bool>) returns (report: Report)
      requires Valid() && (draw.Some? ==> |draw.value.sets| <= SLOTS && |empty| == |draw.value.sets|)
      ensures report.Unsupported? <==> unsupported.Some? || draw.None?
      ensures report.Unsupported? ==> Some(report.reason) == if unsupported.Some? then unsupported else Some(NoLayout)
      ensures report.NoSets? <==> unsupported.None? && draw.Some? && draw.value.sets == []
      ensures report.Rows? ==> |report.rows| == |draw.value.sets|
      ensures report.Rows? ==>
                forall n, b :: 0 <= n < |report.rows| ==>
                                 (report.rows[n] == Recorded(b) <==>
                                  exists i :: 0 <= i < |history| && Stands(history, i, n, |history|) &&
                                              history[i].binding == b && SameUpTo(b.layout, draw.value, n))
      ensures report.Rows? ==>
                forall n :: 0 <= n < |report.rows| ==>
                              (report.rows[n].Incompatible? <==>
                               exists i :: 0 <= i < |history| && Stands(history, i, n, |history|) &&
                                           !SameUpTo(history[i].binding.layout, draw.value, n))
      ensures report.Rows? ==>
                forall n :: 0 <= n < |report.rows| ==>
                              && (report.rows[n].NotApplicable? <==> empty[n] && !EverBound(history, n, |history|))
                              && (report.rows[n].NeverBound? <==> !empty[n] && !EverBound(history, n, |history|))
      ensures report.Rows? ==>
                (report.complete <==> forall r :: r in report.rows ==> r.NotApplicable? || r.Recorded?)
    {
      if unsupported.Some? { return Unsupported(unsupported.value); }
      if draw.None? { return Unsupported(NoLayout); }
      var layout := draw.value;
      if layout.sets == [] { return NoSets; }
      ghost var s: Slots := sets[..];
      var rows, complete := [], true;
      for n := 0 to |layout.sets|
        invariant |rows| == n
        invariant forall k, b :: 0 <= k < n ==> (rows[k] == Recorded(b) <==> Qualified(s, layout, k, b))
        invariant forall k :: 0 <= k < n ==> (rows[k].Incompatible? <==> Unqualified(s, layout, k))
        invariant forall k :: 0 <= k < n ==> (rows[k].NotApplicable? <==> empty[k] && s[k].None?)
        invariant forall k :: 0 <= k < n ==> (rows[k].NeverBound? <==> !empty[k] && s[k].None?)
        invariant complete <==> forall r :: r in rows ==> r.NotApplicable? || r.Recorded?
      {
        var row := RowOf(sets[n], layout, n, empty[n]);
        complete := complete && (row.NotApplicable? || row.Recorded?);
        rows := rows + [row];
      }
      forall n, b | 0 <= n < |rows|
        ensures rows[n] == Recorded(b) <==>
                exists i :: 0 <= i < |history| && Stands(history, i, n, |history|) &&
                            history[i].binding == b && SameUpTo(b.layout, layout, n)
      {
        DrawSeesHistory(history, layout, n, b);
      }
      forall n | 0 <= n < |rows|
        ensures rows[n].Incompatible? <==>
                exists i :: 0 <= i < |history| && Stands(history, i, n, |history|) &&
                            !SameUpTo(history[i].binding.layout, layout, n)
      {
        DrawMissesHistory(history, layout, n);
      }
      forall n | 0 <= n < |rows|
        ensures rows[n].NotApplicable? <==> empty[n] && !EverBound(history, n, |history|)
        ensures rows[n].NeverBound? <==> !empty[n] && !EverBound(history, n, |history|)
      {
        TouchedIffBound(history, n, |history|);
      }
      return Rows(rows, complete);
    }
  }

  function RowOf(slot: Option<Binding>, layout: Layout, n: nat, empty: bool): (row: Row)
    ensures forall b :: row == Recorded(b) <==> slot == Some(b) && b.bound.Some? && Compatible(b.layout, layout, n)
    ensures row.NotApplicable? <==> slot.None? && empty
    ensures row.NeverBound? <==> slot.None? && !empty
    ensures row.Incompatible? <==> slot.Some? && slot.value.bound.Some? && !Compatible(slot.value.layout, layout, n)
  {
    if slot.None? then (if empty then NotApplicable else NeverBound)
    else if slot.value.bound.None? then WasDisturbed
    else if !Compatible(slot.value.layout, layout, n) then Incompatible
    else Recorded(slot.value)
  }
}
