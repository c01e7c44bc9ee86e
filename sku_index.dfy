/**
 * The SKU index: every distinct SKU id of the log gets a dense position
 * 0..K-1. `skuIds` lists the SKUs by position and `skuIdMap` maps each SKU
 * back to its position.
 */
module SkuIndex {
  import opened OrderLog

  /** `skuIds` and `skuIdMap` are inverse to each other. */
  predicate IsBijection(skuIds: seq<string>, skuIdMap: map<string, int>)
  {
    && (forall i :: 0 <= i < |skuIds| ==> skuIds[i] in skuIdMap && skuIdMap[skuIds[i]] == i)
    && (forall s :: s in skuIdMap ==> 0 <= skuIdMap[s] < |skuIds| && skuIds[skuIdMap[s]] == s)
  }

  /** `skuIds`/`skuIdMap` index exactly the SKU ids of the SKU column of `lines`. */
  predicate IndexOf(lines: seq<Line>, skuIds: seq<string>, skuIdMap: map<string, int>)
  {
    && skuIdMap.Keys == SkuSet(lines)
    && IsBijection(skuIds, skuIdMap)
  }

  /** An index lists every SKU once, and lists only indexed SKUs. */
  lemma BijectionLists(skuIds: seq<string>, skuIdMap: map<string, int>)
    requires IsBijection(skuIds, skuIdMap)
    ensures Distinct(skuIds)
    ensures forall s :: s in skuIdMap <==> s in skuIds
  {
    forall p, q | 0 <= p < q < |skuIds| ensures skuIds[p] != skuIds[q] {
      assert skuIdMap[skuIds[p]] == p && skuIdMap[skuIds[q]] == q;
    }
    forall s | s in skuIdMap ensures s in skuIds {
      assert skuIds[skuIdMap[s]] == s;
    }
  }

  /**
   * Collects the SKU ids of the SKU column as map keys, then numbers the keys
   * 0, 1, 2, ... in the map's iteration order, which is arbitrary: each
   * step takes any key not yet numbered.
   */
  method BuildIndex(lines: seq<Line>) returns (skuIds: seq<string>, skuIdMap: map<string, int>)
    ensures IndexOf(lines, skuIds, skuIdMap)
    ensures |skuIds| == |SkuSet(lines)|
  {
    skuIdMap := map[];
    for k := 0 to |lines|
      invariant skuIdMap.Keys == SkuSet(lines[..k])
    {
      assert lines[..k + 1] == lines[..k] + [lines[k]];
      skuIdMap := skuIdMap[lines[k].sku := 0];
    }
    assert lines[..|lines|] == lines;

    skuIds := [];
    var skuOrder := 0;
    var unnumbered := skuIdMap.Keys;
    while unnumbered != {}
      invariant skuIdMap.Keys == SkuSet(lines)
      invariant unnumbered <= skuIdMap.Keys
      invariant skuOrder == |skuIds|
      invariant |skuIds| + |unnumbered| == |skuIdMap.Keys|
      invariant forall i :: 0 <= i < |skuIds| ==>
        skuIds[i] in skuIdMap && skuIds[i] !in unnumbered && skuIdMap[skuIds[i]] == i
      invariant forall s :: s in skuIdMap && s !in unnumbered ==>
        0 <= skuIdMap[s] < |skuIds| && skuIds[skuIdMap[s]] == s
      decreases unnumbered
    {
      var skuId :| skuId in unnumbered;
      skuIds := skuIds + [skuId];
      skuIdMap := skuIdMap[skuId := skuOrder];
      skuOrder := skuOrder + 1;
      unnumbered := unnumbered - {skuId};
    }
  }
}
