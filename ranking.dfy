/**
 * Ranking of the SKU pairs: a stable sort by count, largest count first.
 * Stability means that records with equal counts keep their relative
 * order, i.e. for every count c the records with count c form the same
 * subsequence before and after sorting.
 */
module Ranking {
  import opened Pairs
  import OrderLog

  /** Counts never increase from one record to a later one. */
  predicate SortedDesc(s: seq<SkuPair>)
  {
    forall p, q :: 0 <= p < q < |s| ==> s[p].count >= s[q].count
  }

  /** The subsequence of the records with count `c`, in their order in `s`. */
  function WithCount(s: seq<SkuPair>, c: int): seq<SkuPair>
  {
    if s == [] then [] else (if s[0].count == c then [s[0]] else []) + WithCount(s[1..], c)
  }

  lemma {:induction false} WithCountConcat(s: seq<SkuPair>, t: seq<SkuPair>, c: int)
    ensures WithCount(s + t, c) == WithCount(s, c) + WithCount(t, c)
  {
    if s != [] {
      var head := if s[0].count == c then [s[0]] else [];
      assert (s + t)[0] == s[0] && (s + t)[1..] == s[1..] + t;
      WithCountConcat(s[1..], t, c);
      assert WithCount(s + t, c) == head + (WithCount(s[1..], c) + WithCount(t, c));
      assert head + (WithCount(s[1..], c) + WithCount(t, c)) == (head + WithCount(s[1..], c)) + WithCount(t, c);
    } else {
      assert s + t == t;
    }
  }

  /** `s` with the records at j-1 and j exchanged. */
  function Swap(s: seq<SkuPair>, j: nat): (r: seq<SkuPair>)
    requires 0 < j < |s|
  {
    s[j - 1 := s[j]][j := s[j - 1]]
  }

  /**
   * Exchanging two neighbours with different counts keeps the records and,
   * for every count, the order of the records with that count.
   */
  lemma SwapKeepsFilters(s: seq<SkuPair>, j: nat, orig: seq<SkuPair>)
    requires 0 < j < |s| && s[j - 1].count != s[j].count
    requires multiset(s) == multiset(orig) && SameFilters(s, orig)
    ensures multiset(Swap(s, j)) == multiset(orig)
    ensures SameFilters(Swap(s, j), orig)
  {
    var front, u, v, back := s[..j - 1], s[j - 1], s[j], s[j + 1..];
    assert s == front + [u, v] + back;
    assert Swap(s, j) == front + [v, u] + back;
    forall c ensures WithCount(front + [v, u] + back, c) == WithCount(front + [u, v] + back, c) {
      NeighboursSwapFilter(front, u, v, back, c);
    }
  }

  lemma NeighboursSwapFilter(front: seq<SkuPair>, u: SkuPair, v: SkuPair, back: seq<SkuPair>, c: int)
    requires u.count != v.count
    ensures WithCount(front + [v, u] + back, c) == WithCount(front + [u, v] + back, c)
  {
    WithCountConcat(front + [u, v], back, c);
    WithCountConcat(front, [u, v], c);
    WithCountConcat(front + [v, u], back, c);
    WithCountConcat(front, [v, u], c);
    assert WithCount([u, v], c) == WithCount([v, u], c) by {
      assert [u, v][1..] == [v] && [v, u][1..] == [u];
      assert [v][1..] == [] && [u][1..] == [];
    }
  }

  /**
   * The pairs ranked by count, largest first, ties in their given order:
   * the pairs are copied into an array that is then sorted in place.
   */
  method Rank(pairs: seq<SkuPair>) returns (ranked: seq<SkuPair>)
    ensures SortedDesc(ranked)
    ensures multiset(ranked) == multiset(pairs)
    ensures SameFilters(ranked, pairs)
  {
    var a := new SkuPair[|pairs|](p requires 0 <= p < |pairs| => pairs[p]);
    assert a[..] == pairs;
    StableSortByCount(a);
    ranked := a[..];
  }

  /**
   * Sorts `a` by count, largest first, with a stable insertion sort: each
   * record in turn moves left past its neighbours while their count is
   * smaller.
   */
  method StableSortByCount(a: array<SkuPair>)
    modifies a
    ensures SortedDesc(a[..])
    ensures multiset(a[..]) == multiset(old(a[..]))
    ensures SameFilters(a[..], old(a[..]))
  {
    for i := 0 to a.Length
      invariant SortedDesc(a[..i])
      invariant multiset(a[..]) == multiset(old(a[..]))
      invariant SameFilters(a[..], old(a[..]))
    {
      ghost var before := a[..];
      InsertRecord(a, i);
      SameFiltersTransitive(a[..], before, old(a[..]));
    }
    assert a[..a.Length] == a[..];
  }

  /**
   * With a[..i] sorted, moves a[i] left past every neighbour with a smaller
   * count, so that a[..i + 1] is sorted; the records after i stay put.
   */
  method InsertRecord(a: array<SkuPair>, i: nat)
    requires i < a.Length && SortedDesc(a[..i])
    modifies a
    ensures SortedDesc(a[..i + 1])
    ensures multiset(a[..]) == multiset(old(a[..]))
    ensures SameFilters(a[..], old(a[..]))
    ensures a[i + 1..] == old(a[i + 1..])
  {
    var j := i;
    InsertStart(a[..], i);
    while j > 0 && a[j - 1].count < a[j].count
      invariant 0 <= j <= i
      invariant SortedAround(a[..], i, j)
      invariant multiset(a[..]) == multiset(old(a[..]))
      invariant SameFilters(a[..], old(a[..]))
      invariant a[i + 1..] == old(a[i + 1..])
      decreases j
    {
      ghost var before := a[..];
      a[j - 1], a[j] := a[j], a[j - 1];
      assert a[..] == Swap(before, j);
      SwapKeepsFilters(before, j, old(a[..]));
      InsertStep(before, i, j);
      j := j - 1;
    }
    InsertDone(a[..], i, j);
  }

  /**
   * During the insertion of record i, with the moving record at j: the
   * other records of s[..i + 1] are in order, and the moving record has a
   * larger count than every record it has passed.
   */
  predicate SortedAround(s: seq<SkuPair>, i: nat, j: nat)
    requires j <= i < |s|
  {
    && (forall p, q :: 0 <= p < q <= i && p != j && q != j ==> s[p].count >= s[q].count)
    && (forall q :: j < q <= i ==> s[j].count > s[q].count)
  }

  lemma InsertStart(s: seq<SkuPair>, i: nat)
    requires i < |s| && SortedDesc(s[..i])
    ensures SortedAround(s, i, i)
  {
    forall p, q | 0 <= p < q <= i && p != i && q != i ensures s[p].count >= s[q].count {
      assert s[p] == s[..i][p] && s[q] == s[..i][q];
    }
  }

  lemma InsertStep(s: seq<SkuPair>, i: nat, j: nat)
    requires 0 < j <= i < |s| && SortedAround(s, i, j) && s[j - 1].count < s[j].count
    ensures SortedAround(Swap(s, j), i, j - 1)
  {
  }

  lemma InsertDone(s: seq<SkuPair>, i: nat, j: nat)
    requires j <= i < |s| && SortedAround(s, i, j)
    requires j == 0 || s[j - 1].count >= s[j].count
    ensures SortedDesc(s[..i + 1])
  {
    forall p, q | 0 <= p < q <= i ensures s[p].count >= s[q].count {
      if q == j && p < j - 1 {
        assert s[p].count >= s[j - 1].count;
      }
    }
  }

  lemma SameFiltersTransitive(s: seq<SkuPair>, t: seq<SkuPair>, u: seq<SkuPair>)
    requires SameFilters(s, t) && SameFilters(t, u)
    ensures SameFilters(s, u)
  {
  }

  /** `s` and `t` have the same records of each count, in the same order. */
  ghost predicate SameFilters(s: seq<SkuPair>, t: seq<SkuPair>)
  {
    forall c :: WithCount(s, c) == WithCount(t, c)
  }

  /** A record with count `c` sits in `s` exactly when the filter for `c` is non-empty. */
  lemma {:induction false} WithCountMember(s: seq<SkuPair>, c: int)
    ensures WithCount(s, c) != [] <==> exists p :: 0 <= p < |s| && s[p].count == c
  {
    if s != [] {
      WithCountMember(s[1..], c);
      if s[0].count != c {
        forall p | 0 <= p < |s| && s[p].count == c ensures 0 <= p - 1 < |s[1..]| && s[1..][p - 1].count == c {
        }
      }
    }
  }

  /**
   * There is only one stable descending order: two sequences sorted by
   * count, largest first, with the same records of each count in the same
   * order are equal.
   */
  lemma {:induction false} SortedFiltersDetermine(s: seq<SkuPair>, t: seq<SkuPair>)
    requires SortedDesc(s) && SortedDesc(t)
    requires SameFilters(s, t)
    ensures s == t
  {
    if s == [] || t == [] {
      if s != [] {
        WithCountMember(s, s[0].count);
        WithCountMember(t, s[0].count);
      }
      if t != [] {
        WithCountMember(t, t[0].count);
        WithCountMember(s, t[0].count);
      }
    } else {
      var cs, ct := s[0].count, t[0].count;
      WithCountMember(s, ct);
      WithCountMember(t, cs);
      assert cs == ct;
      assert s[0] == t[0] by {
        assert WithCount(s, cs)[0] == s[0];
        assert WithCount(t, cs)[0] == t[0];
      }
      forall c ensures WithCount(s[1..], c) == WithCount(t[1..], c) {
        var head := if cs == c then [s[0]] else [];
        assert WithCount(s, c) == head + WithCount(s[1..], c);
        assert WithCount(t, c) == head + WithCount(t[1..], c);
        assert WithCount(s[1..], c) == WithCount(s, c)[|head|..];
        assert WithCount(t[1..], c) == WithCount(t, c)[|head|..];
      }
      SortedFiltersDetermine(s[1..], t[1..]);
      OrderLog.HeadTail(s, s[0], s[1..]);
      OrderLog.HeadTail(t, s[0], s[1..]);
    }
  }
}
