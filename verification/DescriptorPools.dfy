/** Descriptor pools and the sets allocated from them: capacity accounting over a whole captured source. */
module DescriptorPools {
  import opened Prelude

  const UINT32_MAX := 4294967295
  const MAX_SETS := 4096
  const MAX_SIZES := 64

  /** Descriptors of one type: a pool size, or a binding of an allocated layout (never empty there). */
  datatype Amount = Amount(kind: string, count: nat)

  datatype PoolSource = PoolSource(device: string, maximum: nat, sizes: seq<Amount>)

  datatype AllocationSource = AllocationSource(pool: string, device: string, bindings: seq<Amount>)

  datatype Pool = Pool(device: string, maximum: nat, used: nat, capacity: map<string, nat>, consumed: map<string, nat>)

  function Lookup(m: map<string, nat>, kind: string): nat {
    if kind in m then m[kind] else 0
  }

  /** Descriptors of a type among the first `n` amounts. */
  function Total(a: seq<Amount>, n: nat, kind: string): nat
    requires n <= |a|
  {
    if n == 0 then 0 else Total(a, n - 1, kind) + if a[n - 1].kind == kind then a[n - 1].count else 0
  }

  lemma {:induction false} TotalGrows(a: seq<Amount>, m: nat, n: nat, kind: string)
    requires m <= n <= |a|
    ensures Total(a, m, kind) <= Total(a, n, kind)
  {
    if m < n { TotalGrows(a, m, n - 1, kind); }
  }

  /** A pool is accepted when its sizes are literal, bounded and do not overflow any type's capacity. */
  predicate PoolOk(p: PoolSource) {
    && 0 < p.maximum <= MAX_SETS && 0 < |p.sizes| <= MAX_SIZES
    && (forall i :: 0 <= i < |p.sizes| ==> 0 < p.sizes[i].count <= UINT32_MAX)
    && (forall i :: 0 <= i < |p.sizes| ==> Total(p.sizes, |p.sizes|, p.sizes[i].kind) <= UINT32_MAX)
  }

  /** Capacity of a pool: sizes of the same type add up, in 32 bits without overflow. */
  method Declare(p: PoolSource) returns (pool: Option<Pool>)
    ensures pool.Some? <==> PoolOk(p)
    ensures pool.Some? ==>
              && pool.value.device == p.device && pool.value.maximum == p.maximum
              && pool.value.used == 0 && pool.value.consumed == map[]
              && forall kind :: Lookup(pool.value.capacity, kind) == Total(p.sizes, |p.sizes|, kind)
  {
    if p.maximum == 0 || p.maximum > MAX_SETS || |p.sizes| == 0 || |p.sizes| > MAX_SIZES { return None; }
    var capacity: map<string, nat> := map[];
    for i := 0 to |p.sizes|
      invariant forall kind :: Lookup(capacity, kind) == Total(p.sizes, i, kind)
      invariant forall k :: 0 <= k < i ==> 0 < p.sizes[k].count <= UINT32_MAX
      invariant forall kind :: Total(p.sizes, i, kind) <= UINT32_MAX
    {
      var size := p.sizes[i];
      if size.count == 0 || size.count > UINT32_MAX { return None; }
      TotalGrows(p.sizes, i + 1, |p.sizes|, size.kind);
      if Lookup(capacity, size.kind) > UINT32_MAX - size.count { return None; }
      capacity := capacity[size.kind := Lookup(capacity, size.kind) + size.count];
    }
    return Some(Pool(p.device, p.maximum, 0, capacity, map[]));
  }

  // ----- What the allocations demand of one pool -----

  function SetsFrom(a: seq<AllocationSource>, n: nat, pool: string): nat
    requires n <= |a|
  {
    if n == 0 then 0 else SetsFrom(a, n - 1, pool) + if a[n - 1].pool == pool then 1 else 0
  }

  function DescriptorsFrom(a: seq<AllocationSource>, n: nat, pool: string, kind: string): nat
    requires n <= |a|
  {
    if n == 0 then 0
    else DescriptorsFrom(a, n - 1, pool, kind) +
         if a[n - 1].pool == pool then Total(a[n - 1].bindings, |a[n - 1].bindings|, kind) else 0
  }

  lemma {:induction false} DemandGrows(a: seq<AllocationSource>, m: nat, n: nat, pool: string, kind: string)
    requires m <= n <= |a|
    ensures SetsFrom(a, m, pool) <= SetsFrom(a, n, pool)
    ensures DescriptorsFrom(a, m, pool, kind) <= DescriptorsFrom(a, n, pool, kind)
  {
    if m < n { DemandGrows(a, m, n - 1, pool, kind); }
  }

  /** The first `n` allocations respect every pool. */
  ghost predicate Respected(pools: map<string, Pool>, a: seq<AllocationSource>, n: nat)
    requires n <= |a|
  {
    && (forall i :: 0 <= i < n ==> a[i].pool in pools && a[i].device == pools[a[i].pool].device)
    && (forall p :: p in pools ==> SetsFrom(a, n, p) <= pools[p].maximum)
    && (forall p, kind :: p in pools ==> DescriptorsFrom(a, n, p, kind) <= Lookup(pools[p].capacity, kind))
  }

  lemma RespectedBefore(pools: map<string, Pool>, a: seq<AllocationSource>, m: nat, n: nat)
    requires m <= n <= |a| && Respected(pools, a, n)
    ensures Respected(pools, a, m)
  {
    forall p | p in pools ensures SetsFrom(a, m, p) <= pools[p].maximum { DemandGrows(a, m, n, p, ""); }
    forall p, kind | p in pools ensures DescriptorsFrom(a, m, p, kind) <= Lookup(pools[p].capacity, kind) {
      DemandGrows(a, m, n, p, kind);
    }
  }

  /** The accounts of a pool equal what was allocated from it. */
  predicate SameLimits(p: Pool, q: Pool) {
    p.device == q.device && p.maximum == q.maximum && p.capacity == q.capacity
  }

  ghost predicate Accounts(p: Pool, before: Pool, a: seq<AllocationSource>, n: nat, name: string)
    requires n <= |a|
  {
    && SameLimits(p, before) && p.used == SetsFrom(a, n, name)
    && forall kind :: Lookup(p.consumed, kind) == DescriptorsFrom(a, n, name, kind)
  }

  /** Charges one set's descriptors to its pool. */
  method Consume(p: Pool, bindings: seq<Amount>) returns (r: Option<Pool>)
    requires forall i :: 0 <= i < |bindings| ==> bindings[i].count > 0
    requires forall kind :: Lookup(p.consumed, kind) <= Lookup(p.capacity, kind)
    ensures r.Some? <==>
            forall kind :: Lookup(p.consumed, kind) + Total(bindings, |bindings|, kind) <= Lookup(p.capacity, kind)
    ensures r.Some? ==> SameLimits(r.value, p) && r.value.used == p.used
    ensures r.Some? ==>
              forall kind :: Lookup(r.value.consumed, kind) == Lookup(p.consumed, kind) + Total(bindings, |bindings|, kind)
  {
    var consumed: map<string, nat> := p.consumed;
    for i := 0 to |bindings|
      invariant forall kind :: Lookup(consumed, kind) == Lookup(p.consumed, kind) + Total(bindings, i, kind)
      invariant forall kind :: Lookup(consumed, kind) <= Lookup(p.capacity, kind)
    {
      var b := bindings[i];
      TotalGrows(bindings, i + 1, |bindings|, b.kind);
      if b.kind !in p.capacity || b.count > p.capacity[b.kind] - Lookup(consumed, b.kind) {
        assert Lookup(p.consumed, b.kind) + Total(bindings, i + 1, b.kind) > Lookup(p.capacity, b.kind);
        return None;
      }
      consumed := consumed[b.kind := Lookup(consumed, b.kind) + b.count];
    }
    return Some(p.(consumed := consumed));
  }

  lemma Overdrawn(declared: map<string, Pool>, p: Pool, a: seq<AllocationSource>, n: nat)
    requires n < |a| && a[n].pool in declared && p.capacity == declared[a[n].pool].capacity
    requires forall kind :: Lookup(p.consumed, kind) == DescriptorsFrom(a, n, a[n].pool, kind)
    requires !(forall kind :: Lookup(p.consumed, kind) + Total(a[n].bindings, |a[n].bindings|, kind) <= Lookup(p.capacity, kind))
    ensures !Respected(declared, a, n + 1)
  {
    var kind :| Lookup(p.consumed, kind) + Total(a[n].bindings, |a[n].bindings|, kind) > Lookup(p.capacity, kind);
    assert DescriptorsFrom(a, n + 1, a[n].pool, kind) > Lookup(declared[a[n].pool].capacity, kind);
  }

  lemma Charged(declared: map<string, Pool>, p: Pool, a: seq<AllocationSource>, n: nat)
    requires n < |a| && a[n].pool in declared && SameLimits(p, declared[a[n].pool]) && a[n].device == p.device
    requires Respected(declared, a, n) && SetsFrom(a, n + 1, a[n].pool) <= p.maximum
    requires forall kind :: Lookup(p.consumed, kind) == DescriptorsFrom(a, n, a[n].pool, kind)
    requires forall kind :: Lookup(p.consumed, kind) + Total(a[n].bindings, |a[n].bindings|, kind) <= Lookup(p.capacity, kind)
    ensures Respected(declared, a, n + 1)
  {
    forall q, kind | q in declared
      ensures DescriptorsFrom(a, n + 1, q, kind) <= Lookup(declared[q].capacity, kind)
    {
      assert DescriptorsFrom(a, n, q, kind) <= Lookup(declared[q].capacity, kind);
      if q == a[n].pool { assert Lookup(p.consumed, kind) == DescriptorsFrom(a, n, q, kind); }
    }
  }

  /** One more allocation: accepted exactly when all of them up to this one respect every pool. */
  method AllocateOne(p: Pool, ghost declared: map<string, Pool>, a: seq<AllocationSource>, n: nat) returns (r: Option<Pool>)
    requires n < |a| && a[n].pool in declared && Accounts(p, declared[a[n].pool], a, n, a[n].pool)
    requires Respected(declared, a, n) && forall j :: 0 <= j < |a[n].bindings| ==> a[n].bindings[j].count > 0
    ensures r.Some? <==> Respected(declared, a, n + 1)
    ensures r.Some? ==> Accounts(r.value, declared[a[n].pool], a, n + 1, a[n].pool)
  {
    if p.device != a[n].device { return None; }
    var q := p.(used := p.used + 1);
    if q.used > q.maximum { return None; }
    forall kind ensures Lookup(q.consumed, kind) <= Lookup(q.capacity, kind) {
      assert DescriptorsFrom(a, n, a[n].pool, kind) <= Lookup(declared[a[n].pool].capacity, kind);
    }
    r := Consume(q, a[n].bindings);
    if r.None? { Overdrawn(declared, q, a, n); } else { Charged(declared, q, a, n); }
  }

  lemma OthersKeep(declared: map<string, Pool>, state: map<string, Pool>, a: seq<AllocationSource>, n: nat, p: string)
    requires n < |a| && p in declared && p in state && a[n].pool != p && Accounts(state[p], declared[p], a, n, p)
    ensures Accounts(state[p], declared[p], a, n + 1, p)
  {
  }

  /** Main result: the captured allocations are accepted exactly when, for every pool, their number and their
      descriptors of each type fit what the pool declares. The accounts end up as those totals. */
  method Allocate(declared: map<string, Pool>, a: seq<AllocationSource>) returns (pools: Option<map<string, Pool>>)
    requires forall p :: p in declared ==> declared[p].used == 0 && declared[p].consumed == map[]
    requires forall i, j :: 0 <= i < |a| && 0 <= j < |a[i].bindings| ==> a[i].bindings[j].count > 0
    ensures pools.Some? <==> Respected(declared, a, |a|) && |a| <= MAX_SETS
    ensures pools.Some? ==>
              pools.value.Keys == declared.Keys &&
              forall p :: p in declared ==> Accounts(pools.value[p], declared[p], a, |a|, p)
  {
    var state := declared;
    for n := 0 to |a|
      invariant n <= MAX_SETS && Respected(declared, a, n) && state.Keys == declared.Keys
      invariant forall p :: p in declared ==> Accounts(state[p], declared[p], a, n, p)
    {
      if Respected(declared, a, |a|) { RespectedBefore(declared, a, n + 1, |a|); }
      if a[n].pool !in state { return None; }
      var r := AllocateOne(state[a[n].pool], declared, a, n);
      if r.None? { return None; }
      forall p | p in declared && p != a[n].pool ensures Accounts(state[p], declared[p], a, n + 1, p) {
        OthersKeep(declared, state, a, n, p);
      }
      state := state[a[n].pool := r.value];
      if n + 1 > MAX_SETS { return None; }
    }
    return Some(state);
  }

  // ----- Independence of the order -----

  lemma {:induction false} DemandJoins(a: seq<AllocationSource>, b: seq<AllocationSource>, n: nat, pool: string, kind: string)
    requires n <= |b|
    ensures SetsFrom(a + b, |a| + n, pool) == SetsFrom(a, |a|, pool) + SetsFrom(b, n, pool)
    ensures DescriptorsFrom(a + b, |a| + n, pool, kind) == DescriptorsFrom(a, |a|, pool, kind) + DescriptorsFrom(b, n, pool, kind)
  {
    if n > 0 { DemandJoins(a, b, n - 1, pool, kind); } else { DemandPrefix(a, b, |a|, pool, kind); }
  }

  lemma {:induction false} DemandPrefix(a: seq<AllocationSource>, b: seq<AllocationSource>, n: nat, pool: string, kind: string)
    requires n <= |a|
    ensures SetsFrom(a + b, n, pool) == SetsFrom(a, n, pool)
    ensures DescriptorsFrom(a + b, n, pool, kind) == DescriptorsFrom(a, n, pool, kind)
  {
    if n > 0 { DemandPrefix(a, b, n - 1, pool, kind); }
  }

  predicate SameDemand(a: seq<AllocationSource>, b: seq<AllocationSource>, pool: string, kind: string) {
    && SetsFrom(a, |a|, pool) == SetsFrom(b, |b|, pool)
    && DescriptorsFrom(a, |a|, pool, kind) == DescriptorsFrom(b, |b|, pool, kind)
  }

  lemma OneMoved(front: seq<AllocationSource>, left: seq<AllocationSource>, right: seq<AllocationSource>,
                 x: AllocationSource, pool: string, kind: string)
    requires SameDemand(front, left + right, pool, kind)
    ensures SameDemand(front + [x], left + [x] + right, pool, kind)
  {
    hide SetsFrom, DescriptorsFrom;
    DemandJoins(front, [x], 1, pool, kind);
    DemandJoins(left, [x], 1, pool, kind);
    DemandJoins(left + [x], right, |right|, pool, kind);
    DemandJoins(left, right, |right|, pool, kind);
  }

  lemma OneOut(front: seq<AllocationSource>, left: seq<AllocationSource>, right: seq<AllocationSource>, x: AllocationSource)
    requires multiset(front + [x]) == multiset(left + [x] + right)
    ensures multiset(front) == multiset(left + right)
  {
    assert multiset(front + [x]) == multiset(front) + multiset{x};
    assert multiset(left + [x] + right) == multiset(left) + multiset{x} + multiset(right);
    assert multiset(left + right) == multiset(left) + multiset(right);
    assert multiset(front) == multiset(front + [x]) - multiset{x};
  }

  /** What is demanded of a pool, and of each of its types, depends on the allocations but not on their order. */
  lemma {:induction false} DemandIgnoresOrder(a: seq<AllocationSource>, b: seq<AllocationSource>, pool: string, kind: string)
    requires multiset(a) == multiset(b)
    ensures SameDemand(a, b, pool, kind)
    decreases |a|
  {
    hide SetsFrom, DescriptorsFrom;
    if a == [] {
      assert |b| == |multiset(b)| == 0;
      assert b == a;
    } else {
      var x, front := a[|a| - 1], a[..|a| - 1];
      assert a == front + [x];
      assert x in multiset(b);
      var i :| 0 <= i < |b| && b[i] == x;
      var left, right := b[..i], b[i + 1..];
      assert b == left + [x] + right;
      OneOut(front, left, right, x);
      DemandIgnoresOrder(front, left + right, pool, kind);
      OneMoved(front, left, right, x, pool, kind);
    }
  }

  /** The verdict on a captured source is the same for every order of its allocations. */
  lemma VerdictIgnoresOrder(pools: map<string, Pool>, a: seq<AllocationSource>, b: seq<AllocationSource>)
    requires multiset(a) == multiset(b)
    ensures |a| == |b| && (Respected(pools, a, |a|) <==> Respected(pools, b, |b|))
  {
    assert |a| == |multiset(a)| == |multiset(b)| == |b|;
    if Respected(pools, a, |a|) { RespectedAnyway(pools, a, b); }
    if Respected(pools, b, |b|) { RespectedAnyway(pools, b, a); }
  }

  lemma RespectedAnyway(pools: map<string, Pool>, a: seq<AllocationSource>, b: seq<AllocationSource>)
    requires multiset(a) == multiset(b) && Respected(pools, a, |a|)
    ensures Respected(pools, b, |b|)
  {
    forall i | 0 <= i < |b| ensures b[i].pool in pools && b[i].device == pools[b[i].pool].device {
      assert b[i] in multiset(a);
      var j :| 0 <= j < |a| && a[j] == b[i];
    }
    forall p | p in pools ensures SetsFrom(b, |b|, p) <= pools[p].maximum { DemandIgnoresOrder(a, b, p, ""); }
    forall p, kind | p in pools ensures DescriptorsFrom(b, |b|, p, kind) <= Lookup(pools[p].capacity, kind) {
      DemandIgnoresOrder(a, b, p, kind);
    }
  }
}
