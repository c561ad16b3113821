/** Paged listing: one page merges the live and the expired identities after a cursor. */
module ArtifactListing {
  import opened Prelude

  const PAGE_LIMIT := 100

  datatype Item = Live(id: nat) | Expired(id: nat)

  datatype Page = Page(items: seq<Item>, nextAfter: Option<nat>)

  /** Where an ordered container continues after a cursor. */
  function UpperBound(s: seq<nat>, after: Option<nat>): (k: nat)
    requires Increasing(s)
    ensures k <= |s|
    ensures forall i :: 0 <= i < |s| ==> (i < k <==> after.Some? && s[i] <= after.value)
  {
    if s == [] || after.None? || s[0] > after.value then 0 else 1 + UpperBound(s[1..], after)
  }

  function Ids(items: seq<Item>): (r: seq<nat>)
    ensures |r| == |items| && forall i :: 0 <= i < |r| ==> r[i] == items[i].id
  {
    seq(|items|, i requires 0 <= i < |items| => items[i].id)
  }

  /** The page as the documentation promises it: the next identities after the cursor ... */
  function PageIds(all: seq<nat>, after: Option<nat>, limit: nat): seq<nat>
    requires Increasing(all)
  {
    var u := UpperBound(all, after);
    all[u..Min(u + limit, |all|)]
  }

  /** ... and the cursor to go on with, exactly when something is left. */
  function PageNext(all: seq<nat>, after: Option<nat>, limit: nat): Option<nat>
    requires Increasing(all) && limit > 0
  {
    var v := UpperBound(all, after) + limit;
    if v < |all| then Some(all[v - 1]) else None
  }

  /** `all` merges the two containers; its first `k` elements are the first `i` live and `j` expired ones. */
  ghost predicate Merging(live: seq<nat>, expired: seq<nat>, all: seq<nat>, i: nat, j: nat, k: nat) {
    && Increasing(live) && Increasing(expired) && Increasing(all)
    && (forall x :: x in all <==> x in live || x in expired)
    && (forall x :: x in live ==> x !in expired)
    && i <= |live| && j <= |expired| && k <= |all|
    && (forall x :: x in all[..k] <==> x in live[..i] || x in expired[..j])
  }

  lemma HeadOfMerge(live: seq<nat>, expired: seq<nat>, all: seq<nat>, i: nat, j: nat, k: nat)
    requires Merging(live, expired, all, i, j, k)
    ensures k < |all| <==> i < |live| || j < |expired|
    ensures i < |live| ==> all[k] <= live[i]
    ensures j < |expired| ==> all[k] <= expired[j]
    ensures k < |all| ==> (i < |live| && all[k] == live[i]) || (j < |expired| && all[k] == expired[j])
  {
    if i < |live| { Beyond(live, i); NotYet(live, expired, all, i, j, k, live[i]); }
    if j < |expired| { Beyond(expired, j); NotYet(live, expired, all, i, j, k, expired[j]); }
    if k < |all| {
      Beyond(all, k);
      assert all[k] in all;
      if all[k] in live { LaterIndex(live, i, all[k]); } else { LaterIndex(expired, j, all[k]); }
    }
  }

  lemma Beyond(s: seq<nat>, i: nat)
    requires Increasing(s) && i < |s|
    ensures s[i] !in s[..i]
  {
  }

  lemma LaterIndex(s: seq<nat>, i: nat, x: nat)
    requires Increasing(s) && i <= |s| && x in s && x !in s[..i]
    ensures i < |s| && s[i] <= x
  {
    var a :| 0 <= a < |s| && s[a] == x;
  }

  lemma NotYet(live: seq<nat>, expired: seq<nat>, all: seq<nat>, i: nat, j: nat, k: nat, x: nat)
    requires Merging(live, expired, all, i, j, k) && x in all && x !in live[..i] && x !in expired[..j]
    ensures k < |all| && all[k] <= x
  {
    LaterIndex(all, k, x);
  }

  lemma TakeOne(s: seq<nat>, i: nat)
    requires i < |s|
    ensures forall x :: x in s[..i + 1] <==> x in s[..i] || x == s[i]
  {
    assert s[..i + 1] == s[..i] + [s[i]];
  }

  /** Taking one element more from the merge and from exactly one of the two sides keeps the union. */
  lemma Joins(a: seq<nat>, l: seq<nat>, e: seq<nat>, y: nat, a': seq<nat>, l': seq<nat>, e': seq<nat>)
    requires forall x :: x in a <==> x in l || x in e
    requires forall x :: x in a' <==> x in a || x == y
    requires (e' == e && forall x :: x in l' <==> x in l || x == y) || (l' == l && forall x :: x in e' <==> x in e || x == y)
    ensures forall x :: x in a' <==> x in l' || x in e'
  {
    forall x ensures x in a' <==> x in l' || x in e' {
      assert x in a <==> x in l || x in e;
    }
  }

  /** The smaller of the two heads is the next element of the merge. */
  lemma MergeStep(live: seq<nat>, expired: seq<nat>, all: seq<nat>, i: nat, j: nat, k: nat)
    requires Merging(live, expired, all, i, j, k) && (i < |live| || j < |expired|)
    ensures k < |all|
    ensures if j == |expired| || (i < |live| && live[i] < expired[j])
            then all[k] == live[i] && Merging(live, expired, all, i + 1, j, k + 1)
            else all[k] == expired[j] && Merging(live, expired, all, i, j + 1, k + 1)
  {
    HeadOfMerge(live, expired, all, i, j, k);
    TakeOne(all, k);
    if j == |expired| || (i < |live| && live[i] < expired[j]) {
      TakeOne(live, i);
      Joins(all[..k], live[..i], expired[..j], live[i], all[..k + 1], live[..i + 1], expired[..j]);
    } else {
      if i < |live| { assert live[i] in live && expired[j] in expired; }
      TakeOne(expired, j);
      Joins(all[..k], live[..i], expired[..j], expired[j], all[..k + 1], live[..i], expired[..j + 1]);
    }
  }

  lemma StartOfMerge(live: seq<nat>, expired: seq<nat>, all: seq<nat>, after: Option<nat>)
    requires Merging(live, expired, all, 0, 0, 0)
    ensures Merging(live, expired, all, UpperBound(live, after), UpperBound(expired, after), UpperBound(all, after))
  {
    var i, j, k := UpperBound(live, after), UpperBound(expired, after), UpperBound(all, after);
    forall x ensures x in all[..k] <==> x in live[..i] || x in expired[..j] {
      if x in all[..k] {
        if x in live { var a :| 0 <= a < |live| && live[a] == x; assert live[..i][a] == x; }
        else { var a :| 0 <= a < |expired| && expired[a] == x; assert expired[..j][a] == x; }
      }
      if x in live[..i] || x in expired[..j] {
        assert x in all;
        var a :| 0 <= a < |all| && all[a] == x;
        assert all[..k][a] == x;
      }
    }
  }

  lemma IdsAre(items: seq<Item>, all: seq<nat>, u: nat)
    requires u + |items| <= |all| && forall t :: 0 <= t < |items| ==> items[t].id == all[u + t]
    ensures Ids(items) == all[u..u + |items|]
    ensures items != [] ==> items[|items| - 1].id == all[u + |items| - 1]
  {
  }

  lemma PageDone(all: seq<nat>, after: Option<nat>, limit: nat, items: seq<Item>)
    requires Increasing(all) && limit > 0
    requires var u := UpperBound(all, after);
             u + |items| == Min(u + limit, |all|) && forall t :: 0 <= t < |items| ==> items[t].id == all[u + t]
    ensures Ids(items) == PageIds(all, after, limit)
    ensures UpperBound(all, after) + |items| < |all| ==> items != []
    ensures PageNext(all, after, limit) ==
            if UpperBound(all, after) + |items| < |all| then Some(items[|items| - 1].id) else None
  {
    hide Increasing;
    var u := UpperBound(all, after);
    IdsAre(items, all, u);
    assert PageIds(all, after, limit) == all[u..u + |items|];
  }

  /** The merge of the two iterators, up to the page size. */
  method Merge(live: seq<nat>, expired: seq<nat>, first: nat, second: nat, limit: nat, ghost all: seq<nat>, ghost u: nat)
    returns (items: seq<Item>, more: bool)
    requires first <= |live| && second <= |expired| && u <= |all| && Merging(live, expired, all, first, second, u)
    ensures |items| <= limit && u + |items| <= |all| && (more <==> u + |items| < |all|) && (more ==> |items| == limit)
    ensures forall t :: 0 <= t < |items| ==> items[t].id == all[u + t]
    ensures forall t :: 0 <= t < |items| ==> if items[t].Live? then items[t].id in live else items[t].id in expired
  {
    hide Merging, Increasing;
    var i: nat, j: nat := first, second;
    items := [];
    while |items| < limit && (i < |live| || j < |expired|)
      invariant |items| <= limit && u + |items| <= |all| && i <= |live| && j <= |expired|
      invariant Merging(live, expired, all, i, j, u + |items|)
      invariant forall t :: 0 <= t < |items| ==> items[t].id == all[u + t]
      invariant forall t :: 0 <= t < |items| ==> if items[t].Live? then items[t].id in live else items[t].id in expired
      decreases limit - |items|
    {
      MergeStep(live, expired, all, i, j, u + |items|);
      if j == |expired| || (i < |live| && live[i] < expired[j]) {
        items, i := items + [Live(live[i])], i + 1;
      } else {
        items, j := items + [Expired(expired[j])], j + 1;
      }
    }
    HeadOfMerge(live, expired, all, i, j, u + |items|);
    more := i < |live| || j < |expired|;
  }

  method MergePage(live: seq<nat>, expired: seq<nat>, ghost all: seq<nat>, after: Option<nat>, limit: nat)
    returns (items: seq<Item>, next: Option<nat>)
    requires Merging(live, expired, all, 0, 0, 0) && limit > 0
    ensures Ids(items) == PageIds(all, after, limit) && next == PageNext(all, after, limit)
    ensures forall t :: 0 <= t < |items| ==> if items[t].Live? then items[t].id in live else items[t].id in expired
  {
    StartOfMerge(live, expired, all, after);
    hide Merging, Increasing, PageIds, PageNext, Ids;
    var more;
    items, more := Merge(live, expired, UpperBound(live, after), UpperBound(expired, after), limit, all, UpperBound(all, after));
    PageDone(all, after, limit, items);
    next := if more then Some(items[|items| - 1].id) else None;
  }

  lemma KeysMerge(live: set<nat>, expired: set<nat>)
    requires live !! expired
    ensures Merging(Ordered(live), Ordered(expired), Ordered(live + expired), 0, 0, 0)
  {
  }

  /** One page of the listing; only a page size between 1 and 100 is accepted. */
  method List<E, X>(entries: map<nat, E>, expirations: map<nat, X>, after: Option<nat>, limit: nat)
    returns (page: Option<Page>)
    requires entries.Keys !! expirations.Keys
    ensures page.None? <==> limit == 0 || limit > PAGE_LIMIT
    ensures page.Some? ==>
              var all := Ordered(entries.Keys + expirations.Keys);
              Ids(page.value.items) == PageIds(all, after, limit) && page.value.nextAfter == PageNext(all, after, limit)
    ensures page.Some? ==> forall t :: t in page.value.items ==> if t.Live? then t.id in entries else t.id in expirations
  {
    hide Merging, Increasing, Ordered;
    if limit == 0 || limit > PAGE_LIMIT { return None; }
    KeysMerge(entries.Keys, expirations.Keys);
    var items, next := MergePage(Ordered(entries.Keys), Ordered(expirations.Keys),
                                 Ordered(entries.Keys + expirations.Keys), after, limit);
    return Some(Page(items, next));
  }

  // ----- Following the cursor -----

  lemma CursorPosition(all: seq<nat>, v: nat)
    requires Increasing(all) && 0 < v <= |all|
    ensures UpperBound(all, Some(all[v - 1])) == v
  {
    var k := UpperBound(all, Some(all[v - 1]));
    if v < |all| { assert all[v - 1] < all[v]; }
  }

  predicate PageSizes(limits: nat -> nat, n: nat) {
    1 <= limits(n) <= PAGE_LIMIT
  }

  /** Everything seen by following the cursor from the n-th page on, each page with a limit of its own. */
  ghost function Follow(all: seq<nat>, after: Option<nat>, limits: nat -> nat, n: nat): seq<nat>
    requires Increasing(all) && forall k :: PageSizes(limits, k)
    decreases |all| - UpperBound(all, after)
  {
    assert PageSizes(limits, n);
    var next := PageNext(all, after, limits(n));
    PageIds(all, after, limits(n)) +
    (if next.None? then [] else
       CursorPosition(all, UpperBound(all, after) + limits(n));
       Follow(all, next, limits, n + 1))
  }

  lemma Split(s: seq<nat>, u: nat, v: nat)
    requires u <= v <= |s|
    ensures s[u..] == s[u..v] + s[v..]
  {
  }

  lemma {:induction false} FollowFrom(all: seq<nat>, after: Option<nat>, limits: nat -> nat, n: nat)
    requires Increasing(all) && forall k :: PageSizes(limits, k)
    ensures Follow(all, after, limits, n) == all[UpperBound(all, after)..]
    decreases |all| - UpperBound(all, after)
  {
    assert PageSizes(limits, n);
    var u, next := UpperBound(all, after), PageNext(all, after, limits(n));
    if next.Some? {
      var v := u + limits(n);
      CursorPosition(all, v);
      FollowFrom(all, next, limits, n + 1);
      Split(all, u, v);
    }
  }

  /** Following the cursor from the start ends, and shows every identity exactly once in increasing order. */
  lemma FollowListsAll(live: set<nat>, expired: set<nat>, limits: nat -> nat)
    requires forall k :: PageSizes(limits, k)
    ensures var ids := Follow(Ordered(live + expired), None, limits, 0);
            Increasing(ids) && forall x :: x in ids <==> x in live || x in expired
  {
    FollowFrom(Ordered(live + expired), None, limits, 0);
    assert UpperBound(Ordered(live + expired), None) == 0;
  }
}
