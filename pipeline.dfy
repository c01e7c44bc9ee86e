/**
 * The whole batch run: read the log, index the SKUs, build the
 * co-occurrence matrix, extract the pairs above the diagonal, rank them
 * by count and write the first `total` of them.
 */
module Pipeline {
  import opened OrderLog
  import opened CoOccurrenceSpec
  import opened SkuIndex
  import opened Accumulator
  import opened Pairs
  import opened Ranking
  import opened Sheet

  /**
   * The pairs the extraction step should yield for index `skuIds`: one per
   * position (i, j) with i < j, in row-major order, holding SKUs i and j and
   * their co-occurrence count.
   */
  function ExpectedPairs(lines: seq<Line>, skuIds: seq<string>): (pairs: seq<SkuPair>)
    ensures |pairs| == |UpperPositions(|skuIds|)|
  {
    var positions := UpperPositions(|skuIds|);
    seq(|positions|, p requires 0 <= p < |positions| =>
      SkuPair(skuIds[positions[p].0], skuIds[positions[p].1],
              CoOccurrence(lines, skuIds[positions[p].0], skuIds[positions[p].1])))
  }

  /**
   * With every SKU listed once, each expected pair names two different
   * SKUs, and its count is the same whichever way round the SKUs are taken.
   */
  lemma ExpectedPairsDistinctSkus(lines: seq<Line>, skuIds: seq<string>)
    requires Distinct(skuIds)
    ensures forall p :: 0 <= p < |ExpectedPairs(lines, skuIds)| ==>
      var pair := ExpectedPairs(lines, skuIds)[p];
      pair.sku1 != pair.sku2 && pair.count == CoOccurrence(lines, pair.sku2, pair.sku1)
  {
    var pairs := ExpectedPairs(lines, skuIds);
    forall p | 0 <= p < |pairs| ensures pairs[p].sku1 != pairs[p].sku2
      && pairs[p].count == CoOccurrence(lines, pairs[p].sku2, pairs[p].sku1)
    {
      var pos := UpperPositions(|skuIds|)[p];
      assert pairs[p] == SkuPair(skuIds[pos.0], skuIds[pos.1], CoOccurrence(lines, skuIds[pos.0], skuIds[pos.1]));
      CoOccurrenceSymmetric(lines, skuIds[pos.0], skuIds[pos.1]);
    }
  }

  /** An index built from the log covers every SKU of the log. */
  lemma IndexCoversLog(lines: seq<Line>, skuIds: seq<string>, skuIdMap: map<string, int>)
    requires IndexOf(lines, skuIds, skuIdMap)
    ensures Indexed(lines, skuIdMap)
  {
    forall m | 0 <= m < |lines| ensures lines[m].sku in skuIdMap {
      assert lines[m].sku in SkuSet(lines);
    }
  }

  /**
   * Steps 2 to 6 of the run: indexes the SKUs of the log, builds the
   * co-occurrence matrix and extracts the pairs above its diagonal.
   */
  method CountPairs(lines: seq<Line>) returns (skuIds: seq<string>, pairs: seq<SkuPair>)
    ensures Distinct(skuIds) && forall s :: s in skuIds <==> s in SkuSet(lines)
    ensures pairs == ExpectedPairs(lines, skuIds)
  {
    var skuIdMap;
    skuIds, skuIdMap := BuildIndex(lines);
    BijectionLists(skuIds, skuIdMap);
    IndexCoversLog(lines, skuIds, skuIdMap);
    var matrix := BuildMatrix(lines, skuIds, skuIdMap);
    pairs := ExtractPairs(matrix, skuIds);
  }

  /** Every record of a permutation of `pairs` is one of `pairs`. */
  lemma PermutationKeepsDistinctSkus(ranked: seq<SkuPair>, pairs: seq<SkuPair>)
    requires multiset(ranked) == multiset(pairs)
    requires forall p :: 0 <= p < |pairs| ==> pairs[p].sku1 != pairs[p].sku2
    ensures forall p :: 0 <= p < |ranked| ==> ranked[p].sku1 != ranked[p].sku2
  {
    forall p | 0 <= p < |ranked| ensures ranked[p].sku1 != ranked[p].sku2 {
      assert ranked[p] in multiset(ranked);
      assert ranked[p] in pairs;
    }
  }

  /**
   * Runs the batch on the rows of the input sheet. Returns the SKU index,
   * the ranked pairs and the outcome of writing the first `total` of them.
   */
  method Analyse(rows: seq<SheetRow>, total: int)
    returns (skuIds: seq<string>, ranked: seq<SkuPair>, result: SaveResult)
    requires WellFormed(rows)
    ensures Distinct(skuIds) && forall s :: s in skuIds <==> s in SkuSet(Lines(rows))
    ensures 2 * |ranked| == |skuIds| * (|skuIds| - 1)
    ensures SortedDesc(ranked)
    ensures multiset(ranked) == multiset(ExpectedPairs(Lines(rows), skuIds))
    ensures SameFilters(ranked, ExpectedPairs(Lines(rows), skuIds))
    ensures forall p :: 0 <= p < |ranked| ==> ranked[p].sku1 != ranked[p].sku2
    ensures result.IndexOutOfRange? <==> total > |ranked|
    ensures result.Saved? ==> WritesPrefix(result.rows, ranked, if total < 0 then 0 else total)
  {
    var lines := Lines(rows);
    var pairs;
    skuIds, pairs := CountPairs(lines);
    ranked := Rank(pairs);
    assert |ranked| == |pairs| by {
      assert |multiset(ranked)| == |multiset(pairs)|;
    }
    UpperPositionsCount(|skuIds|);
    ExpectedPairsDistinctSkus(lines, skuIds);
    PermutationKeepsDistinctSkus(ranked, pairs);
    result := Save(ranked, total);
  }
}
