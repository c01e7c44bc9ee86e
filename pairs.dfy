/**
 * SKU pairs: the cells above the diagonal of the co-occurrence matrix,
 * read row by row into a list of (sku1, sku2, count) records.
 */
module Pairs {

  /** One output record: two SKU ids and their co-occurrence count. */
  datatype SkuPair = SkuPair(sku1: string, sku2: string, count: int)

  /** A matrix position (row, column). */
  type Position = (nat, nat)

  /** The positions (i, j) with i < j < k of row i, by increasing column. */
  function RowPositions(k: nat, i: nat): (row: seq<Position>)
    requires i < k
    ensures |row| == k - i - 1
    ensures forall t :: 0 <= t < |row| ==> row[t] == (i, i + 1 + t)
  {
    seq(k - i - 1, t requires 0 <= t < k - i - 1 => (i, i + 1 + t))
  }

  /** `p` comes strictly before `q` in row-major order. */
  predicate Before(p: Position, q: Position)
  {
    p.0 < q.0 || (p.0 == q.0 && p.1 < q.1)
  }

  /** The positions of `s` are strictly increasing in row-major order. */
  predicate Ascending(s: seq<Position>)
  {
    forall p, q :: 0 <= p < q < |s| ==> Before(s[p], s[q])
  }

  /**
   * The positions above the diagonal in rows 0 .. i-1 of a k x k matrix,
   * row by row, each row by increasing column.
   */
  function PositionsBefore(k: nat, i: nat): (s: seq<Position>)
    requires i <= k
    ensures forall p :: 0 <= p < |s| ==> s[p].0 < i && s[p].0 < s[p].1 < k
  {
    if i == 0 then [] else PositionsBefore(k, i - 1) + RowPositions(k, i - 1)
  }

  /** All positions above the diagonal of a k x k matrix, in row-major order. */
  function UpperPositions(k: nat): (s: seq<Position>)
    ensures forall p :: 0 <= p < |s| ==> s[p].0 < s[p].1 < k
  {
    PositionsBefore(k, k)
  }

  lemma Triangle(k: nat, i: nat)
    requires 0 < i <= k
    ensures (i - 1) * (2 * k - i) + 2 * (k - i) == i * (2 * k - i - 1)
  {
  }

  /** Rows 0 .. i-1 hold i * (2k - i - 1) / 2 positions above the diagonal. */
  lemma {:induction false} PositionsBeforeCount(k: nat, i: nat)
    requires i <= k
    ensures 2 * |PositionsBefore(k, i)| == i * (2 * k - i - 1)
  {
    if i > 0 {
      PositionsBeforeCount(k, i - 1);
      Triangle(k, i);
    }
  }

  /** A k x k matrix has k * (k - 1) / 2 positions above the diagonal. */
  lemma UpperPositionsCount(k: nat)
    ensures 2 * |UpperPositions(k)| == k * (k - 1)
  {
    PositionsBeforeCount(k, k);
  }

  /** The positions are listed in strictly increasing row-major order. */
  lemma {:induction false} PositionsBeforeAscending(k: nat, i: nat)
    requires i <= k
    ensures Ascending(PositionsBefore(k, i))
  {
    if i > 0 {
      PositionsBeforeAscending(k, i - 1);
      var front, row := PositionsBefore(k, i - 1), RowPositions(k, i - 1);
      var s := front + row;
      forall p, q | 0 <= p < q < |s| ensures Before(s[p], s[q]) {
        if q < |front| {
          assert s[p] == front[p] && s[q] == front[q];
        } else if p < |front| {
          assert s[p] == front[p] && s[q] == row[q - |front|];
        } else {
          assert s[p] == row[p - |front|] && s[q] == row[q - |front|];
        }
      }
    }
  }

  /** Row-major order lists every position once: no position repeats. */
  lemma UpperPositionsAscending(k: nat)
    ensures Ascending(UpperPositions(k))
    ensures forall p, q :: 0 <= p < q < |UpperPositions(k)| ==> UpperPositions(k)[p] != UpperPositions(k)[q]
  {
    PositionsBeforeAscending(k, k);
  }

  /** Position (a, b) with a < b sits after the rows before a, at offset b - a - 1. */
  lemma {:induction false} PositionsBeforeComplete(k: nat, i: nat, a: nat, b: nat)
    requires i <= k && a < i && a < b < k
    ensures |PositionsBefore(k, a)| + (b - a - 1) < |PositionsBefore(k, i)|
    ensures PositionsBefore(k, i)[|PositionsBefore(k, a)| + (b - a - 1)] == (a, b)
  {
    var front := PositionsBefore(k, i - 1);
    if a < i - 1 {
      PositionsBeforeComplete(k, i - 1, a, b);
      assert PositionsBefore(k, i) == front + RowPositions(k, i - 1);
    } else {
      assert PositionsBefore(k, i) == front + RowPositions(k, a);
    }
  }

  /** Every position above the diagonal is listed. */
  lemma UpperPositionsComplete(k: nat, a: nat, b: nat)
    requires a < b < k
    ensures (a, b) in UpperPositions(k)
  {
    PositionsBeforeComplete(k, k, a, b);
  }

  /** The record for position (i, j): SKUs i and j and cell [i][j]. */
  function PairAt(matrix: array2<int>, skuIds: seq<string>, pos: Position): (pair: SkuPair)
    reads matrix
    requires matrix.Length0 == |skuIds| && matrix.Length1 == |skuIds|
    requires pos.0 < |skuIds| && pos.1 < |skuIds|
  {
    SkuPair(skuIds[pos.0], skuIds[pos.1], matrix[pos.0, pos.1])
  }

  /**
   * Reads the cells above the diagonal row by row into records: for every
   * row i and every column j > i, the record (skuIds[i], skuIds[j],
   * matrix[i][j]) is appended.
   */
  method ExtractPairs(matrix: array2<int>, skuIds: seq<string>) returns (pairs: seq<SkuPair>)
    requires matrix.Length0 == |skuIds| && matrix.Length1 == |skuIds|
    ensures |pairs| == |UpperPositions(|skuIds|)|
    ensures forall p :: 0 <= p < |pairs| ==> pairs[p] == PairAt(matrix, skuIds, UpperPositions(|skuIds|)[p])
  {
    var k := matrix.Length0;
    pairs := [];
    for i := 0 to k
      invariant |pairs| == |PositionsBefore(k, i)|
      invariant forall p :: 0 <= p < |pairs| ==> pairs[p] == PairAt(matrix, skuIds, PositionsBefore(k, i)[p])
    {
      ghost var front := PositionsBefore(k, i);
      ghost var row := RowPositions(k, i);
      for j := i + 1 to k
        invariant |pairs| == |front| + (j - i - 1)
        invariant forall p :: 0 <= p < |pairs| ==> pairs[p] == PairAt(matrix, skuIds, (front + row)[p])
      {
        assert (front + row)[|pairs|] == (i, j);
        pairs := pairs + [SkuPair(skuIds[i], skuIds[j], matrix[i, j])];
      }
      assert PositionsBefore(k, i + 1) == front + row;
    }
  }
}
