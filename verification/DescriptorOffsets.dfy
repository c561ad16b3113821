/** Which descriptor takes which dynamic offset of a bind command. */
module DescriptorOffsets {
  import opened Prelude
  import opened DescriptorState

  /** The descriptors of the first `n` bindings that take an offset: the place of the binding and the element. */
  predicate TakesOffset(bs: seq<LayoutBinding>, n: nat, place: nat, element: nat) {
    place < n <= |bs| && bs[place].dynamic && element < bs[place].count
  }

  /** Each of them has its own place in the list of offsets, after those of earlier bindings and earlier elements. */
  lemma {:induction false} EachTakesOne(bs: seq<LayoutBinding>, n: nat, place: nat, element: nat)
    requires TakesOffset(bs, n, place, element)
    ensures var i := |DynamicSlots(bs, place)| + element;
            i < |DynamicSlots(bs, n)| && DynamicSlots(bs, n)[i] == (bs[place].binding, element)
  {
    if place + 1 < n { EachTakesOne(bs, n - 1, place, element); }
  }

  /** And every offset has such a descriptor. */
  lemma {:induction false} EachIsTaken(bs: seq<LayoutBinding>, n: nat, i: nat) returns (place: nat, element: nat)
    requires n <= |bs| && i < |DynamicSlots(bs, n)|
    ensures TakesOffset(bs, n, place, element) && i == |DynamicSlots(bs, place)| + element
  {
    if i < |DynamicSlots(bs, n - 1)| {
      place, element := EachIsTaken(bs, n - 1, i);
    } else {
      place, element := n - 1, i - |DynamicSlots(bs, n - 1)|;
    }
  }

  /** The offsets recorded by the first `n` sets, one after the other. */
  function AllOffsets(bs: seq<Bind>, n: nat): seq<Offset>
    requires n <= |bs|
  {
    if n == 0 then [] else AllOffsets(bs, n - 1) + bs[n - 1].binding.offsets
  }

  /** The sets of an accepted command take the listed offsets one by one: none is skipped or used twice. */
  lemma {:induction false} OffsetsInOrder(call: BindCall, bs: seq<Bind>, n: nat)
    requires Decoded(call) && n <= call.count && SetsFit(call, n) && IsBinds(call, n, bs)
    ensures |AllOffsets(bs, n)| == OffsetsBefore(call.sets.value, n) <= |GivenOffsets(call).value|
    ensures forall k :: 0 <= k < |AllOffsets(bs, n)| ==>
                          && AllOffsets(bs, n)[k].source == k
                          && AllOffsets(bs, n)[k].value == GivenOffsets(call).value[k]
  {
    if n > 0 {
      OffsetsInOrder(call, bs[..n - 1], n - 1);
      SameOffsets(bs[..n - 1], bs, n - 1);
      assert IsBind(call, n - 1, bs[n - 1]);
    }
  }

  lemma {:induction false} SameOffsets(a: seq<Bind>, b: seq<Bind>, n: nat)
    requires a <= b && n <= |a|
    ensures AllOffsets(a, n) == AllOffsets(b, n)
  {
    if n > 0 { SameOffsets(a, b, n - 1); }
  }

  /** An accepted command uses up its list of offsets exactly. */
  lemma AllAreUsed(call: BindCall, bs: seq<Bind>)
    requires Accepts(call) && IsBinds(call, call.count, bs)
    ensures |AllOffsets(bs, call.count)| == call.dynamicCount
    ensures forall k :: 0 <= k < call.dynamicCount ==> AllOffsets(bs, call.count)[k].value == GivenOffsets(call).value[k]
  {
    OffsetsInOrder(call, bs, call.count);
  }
}
