/** Lists of domain identifiers: sorting and removal of duplicates. */
module DomainIds {
  import opened Events

  function Ids(s: seq<DomainId>): set<DomainId> {
    set d | d in s
  }

  /** In order, with repetitions. */
  predicate Sorted(ids: seq<DomainId>) {
    forall i, j :: 0 <= i < j < |ids| ==> ids[i] <= ids[j]
  }

  /** In order, without repetitions. */
  predicate Ascending(ids: seq<DomainId>) {
    forall i, j :: 0 <= i < j < |ids| ==> ids[i] < ids[j]
  }

  predicate Distinct(ids: seq<DomainId>) {
    forall i, j :: 0 <= i < j < |ids| ==> ids[i] != ids[j]
  }

  lemma SameIds(a: seq<DomainId>, b: seq<DomainId>)
    requires multiset(a) == multiset(b)
    ensures Ids(a) == Ids(b)
  {
    forall d ensures d in a <==> d in b {
      assert d in a <==> d in multiset(a);
      assert d in b <==> d in multiset(b);
    }
  }

  // ----- sorting -----

  lemma Inserted(low: seq<DomainId>, x: DomainId, high: seq<DomainId>)
    ensures multiset(low + [x] + high) == multiset(low + high) + multiset{x}
  {
  }

  lemma InsertedSorted(low: seq<DomainId>, x: DomainId, high: seq<DomainId>)
    requires Sorted(low + high)
    requires (forall i :: 0 <= i < |low| ==> low[i] <= x) && (forall i :: 0 <= i < |high| ==> x <= high[i])
    ensures Sorted(low + [x] + high)
  {
    var s, t := low + high, low + [x] + high;
    assert forall i :: 0 <= i < |low| ==> s[i] == t[i] == low[i];
    assert forall i :: 0 <= i < |high| ==> s[|low| + i] == t[|low| + 1 + i] == high[i];
  }

  method Insert(sorted: seq<DomainId>, x: DomainId) returns (ids: seq<DomainId>)
    requires Sorted(sorted)
    ensures Sorted(ids) && multiset(ids) == multiset(sorted) + multiset{x}
  {
    var k := 0;
    while k < |sorted| && sorted[k] < x
      invariant 0 <= k <= |sorted|
      invariant forall i :: 0 <= i < k ==> sorted[i] < x
    {
      k := k + 1;
    }
    var low, high := sorted[..k], sorted[k..];
    assert sorted == low + high;
    InsertedSorted(low, x, high);
    Inserted(low, x, high);
    ids := low + [x] + high;
  }

  method Sort(raw: seq<DomainId>) returns (ids: seq<DomainId>)
    ensures Sorted(ids) && multiset(ids) == multiset(raw)
  {
    ids := [];
    for n := 0 to |raw|
      invariant Sorted(ids) && multiset(ids) == multiset(raw[..n])
    {
      assert raw[..n + 1] == raw[..n] + [raw[n]];
      ids := Insert(ids, raw[n]);
    }
    assert raw[..|raw|] == raw;
  }

  lemma {:induction false} OccursOnce(ids: seq<DomainId>, x: DomainId)
    requires Distinct(ids)
    ensures multiset(ids)[x] <= 1
  {
    if ids != [] {
      var n := |ids| - 1;
      OccursOnce(ids[..n], x);
      assert ids == ids[..n] + [ids[n]];
      assert ids[n] !in ids[..n];
      assert ids[n] !in multiset(ids[..n]);
    }
  }

  lemma OccursTwice(ids: seq<DomainId>, i: nat, j: nat)
    requires i < j < |ids| && ids[i] == ids[j]
    ensures multiset(ids)[ids[i]] >= 2
  {
    assert ids == ids[..j] + ids[j..];
    assert ids[..j][i] in multiset(ids[..j]);
    assert ids[j..][0] in multiset(ids[j..]);
  }

  lemma SortedDistinct(raw: seq<DomainId>, ids: seq<DomainId>)
    requires Distinct(raw) && Sorted(ids) && multiset(ids) == multiset(raw)
    ensures Ascending(ids)
  {
    forall i, j | 0 <= i < j < |ids| ensures ids[i] < ids[j] {
      if ids[i] == ids[j] {
        OccursTwice(ids, i, j);
        OccursOnce(raw, ids[i]);
      }
    }
  }

  method SortDistinct(raw: seq<DomainId>) returns (ids: seq<DomainId>)
    requires Distinct(raw)
    ensures Ascending(ids) && Ids(ids) == Ids(raw)
  {
    ids := Sort(raw);
    SortedDistinct(raw, ids);
    SameIds(ids, raw);
  }

  // ----- duplicates -----

  lemma IdsExtend(ids: seq<DomainId>, x: DomainId)
    ensures Ids(ids + [x]) == Ids(ids) + {x}
  {
  }

  /** Removes neighbours that are equal. */
  method Dedup(sorted: seq<DomainId>) returns (ids: seq<DomainId>)
    requires Sorted(sorted)
    ensures Ascending(ids) && Ids(ids) == Ids(sorted)
  {
    ids := [];
    for n := 0 to |sorted|
      invariant Ascending(ids) && Ids(ids) == Ids(sorted[..n])
      invariant ids != [] ==> n > 0 && ids[|ids| - 1] == sorted[n - 1]
      invariant ids == [] ==> n == 0
    {
      assert sorted[..n + 1] == sorted[..n] + [sorted[n]];
      IdsExtend(sorted[..n], sorted[n]);
      if ids == [] || ids[|ids| - 1] != sorted[n] {
        assert ids != [] ==> sorted[n - 1] < sorted[n];
        IdsExtend(ids, sorted[n]);
        ids := ids + [sorted[n]];
      } else {
        assert sorted[n] in Ids(ids);
      }
    }
    assert sorted[..|sorted|] == sorted;
  }
}
