/** The accounts of descriptor pools as numbers of things: allocated sets, and single descriptors of a type. */
module PoolDemand {
  import opened Prelude
  import opened DescriptorPools

  /** The single descriptors of a type among the first `n` amounts: the place of the amount and a number in it. */
  function Units(a: seq<Amount>, n: nat, kind: string): set<(nat, nat)>
    requires n <= |a|
  {
    set i: nat, c: nat | i < n && a[i].kind == kind && c < a[i].count :: (i, c)
  }

  function Row(i: nat, count: nat): (r: set<(nat, nat)>)
    ensures |r| == count && forall u :: u in r <==> u.0 == i && u.1 < count
  {
    if count == 0 then {} else Row(i, count - 1) + {(i, count - 1)}
  }

  lemma Joined<T>(a: set<T>, b: set<T>, c: set<T>)
    requires a !! b && forall x :: x in c <==> x in a || x in b
    ensures |c| == |a| + |b|
  {
    assert c == a + b;
  }

  lemma {:induction false} TotalIsUnits(a: seq<Amount>, n: nat, kind: string)
    requires n <= |a|
    ensures Total(a, n, kind) == |Units(a, n, kind)|
  {
    if n > 0 {
      TotalIsUnits(a, n - 1, kind);
      var before, last := Units(a, n - 1, kind), if a[n - 1].kind == kind then Row(n - 1, a[n - 1].count) else {};
      forall u ensures u in Units(a, n, kind) <==> u in before || u in last {}
      Joined(before, last, Units(a, n, kind));
    }
  }

  /** The first `n` allocations that draw on the pool. */
  function SetUnits(a: seq<AllocationSource>, n: nat, pool: string): set<nat>
    requires n <= |a|
  {
    set i: nat | i < n && a[i].pool == pool
  }

  lemma {:induction false} SetsAreCounted(a: seq<AllocationSource>, n: nat, pool: string)
    requires n <= |a|
    ensures SetsFrom(a, n, pool) == |SetUnits(a, n, pool)|
  {
    if n > 0 {
      SetsAreCounted(a, n - 1, pool);
      assert SetUnits(a, n, pool) == SetUnits(a, n - 1, pool) + if a[n - 1].pool == pool then {n - 1} else {};
    }
  }

  /** The single descriptors of a type in the sets allocated from a pool: allocation, binding and a number in it. */
  function DescriptorUnits(a: seq<AllocationSource>, n: nat, pool: string, kind: string): set<(nat, (nat, nat))>
    requires n <= |a|
  {
    set i: nat, u | i < n && a[i].pool == pool && u in Units(a[i].bindings, |a[i].bindings|, kind) :: (i, u)
  }

  function Tagged(i: nat, units: set<(nat, nat)>): (r: set<(nat, (nat, nat))>)
  {
    set u | u in units :: (i, u)
  }

  lemma {:induction false} TaggedSize(i: nat, units: set<(nat, nat)>)
    ensures |Tagged(i, units)| == |units|
  {
    if units != {} {
      var u :| u in units;
      TaggedSize(i, units - {u});
      assert Tagged(i, units) == Tagged(i, units - {u}) + {(i, u)};
    }
  }

  /** What the allocations demand of a pool and of one of its types is the number of these descriptors. */
  lemma {:induction false} DemandIsUnits(a: seq<AllocationSource>, n: nat, pool: string, kind: string)
    requires n <= |a|
    ensures DescriptorsFrom(a, n, pool, kind) == |DescriptorUnits(a, n, pool, kind)|
  {
    if n > 0 {
      DemandIsUnits(a, n - 1, pool, kind);
      var own := Units(a[n - 1].bindings, |a[n - 1].bindings|, kind);
      TotalIsUnits(a[n - 1].bindings, |a[n - 1].bindings|, kind);
      TaggedSize(n - 1, own);
      var before, last := DescriptorUnits(a, n - 1, pool, kind), if a[n - 1].pool == pool then Tagged(n - 1, own) else {};
      forall u ensures u in DescriptorUnits(a, n, pool, kind) <==> u in before || u in last {}
      Joined(before, last, DescriptorUnits(a, n, pool, kind));
    }
  }

  /** The pool has the limits of its source. */
  ghost predicate DeclaredAs(p: Pool, s: PoolSource) {
    && p.device == s.device && p.maximum == s.maximum
    && forall kind :: Lookup(p.capacity, kind) == Total(s.sizes, |s.sizes|, kind)
  }

  /** Each pool declares at least as many sets, and as many descriptors of every type, as are allocated from it. */
  ghost predicate Enough(sources: map<string, PoolSource>, a: seq<AllocationSource>) {
    && (forall i :: 0 <= i < |a| ==> a[i].pool in sources && a[i].device == sources[a[i].pool].device)
    && (forall p :: p in sources ==> |SetUnits(a, |a|, p)| <= sources[p].maximum)
    && (forall p, kind :: p in sources ==>
          |DescriptorUnits(a, |a|, p, kind)| <= |Units(sources[p].sizes, |sources[p].sizes|, kind)|)
  }

  /** The verdict on a captured source, counted set by set and descriptor by descriptor. */
  lemma VerdictIsCount(sources: map<string, PoolSource>, pools: map<string, Pool>, a: seq<AllocationSource>)
    requires pools.Keys == sources.Keys && forall p :: p in pools ==> DeclaredAs(pools[p], sources[p])
    ensures Respected(pools, a, |a|) <==> Enough(sources, a)
  {
    hide Units, SetUnits, DescriptorUnits;
    forall p ensures SetsFrom(a, |a|, p) == |SetUnits(a, |a|, p)| { SetsAreCounted(a, |a|, p); }
    forall p, kind ensures DescriptorsFrom(a, |a|, p, kind) == |DescriptorUnits(a, |a|, p, kind)| {
      DemandIsUnits(a, |a|, p, kind);
    }
    forall p, kind | p in sources
      ensures Lookup(pools[p].capacity, kind) == |Units(sources[p].sizes, |sources[p].sizes|, kind)|
    {
      TotalIsUnits(sources[p].sizes, |sources[p].sizes|, kind);
    }
  }
}
