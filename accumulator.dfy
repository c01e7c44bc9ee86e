/**
 * The co-occurrence accumulator: a K x K matrix of counts, zero at first,
 * updated cell by cell while the log is scanned one order at a time.
 */
module Accumulator {
  import opened OrderLog
  import opened CoOccurrenceSpec
  import opened SkuIndex

  /**
   * Finds the length of the order that starts at line `start` by extending
   * a window while the next line has the order id of line `start`.
   */
  method RunEnd(lines: seq<Line>, start: nat) returns (i: nat)
    requires start < |lines|
    ensures i == RunLength(lines, start)
  {
    i := 1;
    while start + i < |lines| && lines[start].orderId == lines[start + i].orderId
      invariant 1 <= i <= |lines| - start
      invariant forall k :: start <= k < start + i ==> lines[k].orderId == lines[start].orderId
      decreases |lines| - start - i
    {
      i := i + 1;
    }
    RunLengthUnique(lines, start, i);
  }

  /** Copies the SKU column of the order `lines[start..start + n]`. */
  method CollectSkus(lines: seq<Line>, start: nat, n: nat) returns (skuInOrder: seq<string>)
    requires start + n <= |lines|
    ensures skuInOrder == Skus(lines[start..start + n])
  {
    skuInOrder := [];
    for j := start to start + n
      invariant skuInOrder == Skus(lines[start..j])
    {
      skuInOrder := skuInOrder + [lines[j].sku];
    }
  }

  /**
   * Adds one to cell [sku1][sku2] for every line sku2 of the order: row
   * `skuIdMap[sku1]` of the matrix gains the multiplicity of each SKU.
   */
  method AddPairsWith(matrix: array2<int>, skuIds: seq<string>, skuIdMap: map<string, int>,
                      sku1: string, skuInOrder: seq<string>)
    requires IsBijection(skuIds, skuIdMap)
    requires matrix.Length0 == |skuIds| && matrix.Length1 == |skuIds|
    requires sku1 in skuIdMap
    requires forall m :: 0 <= m < |skuInOrder| ==> skuInOrder[m] in skuIdMap
    modifies matrix
    ensures forall x, y :: 0 <= x < |skuIds| && 0 <= y < |skuIds| ==>
      matrix[x, y] == old(matrix[x, y]) + if x == skuIdMap[sku1] then multiset(skuInOrder)[skuIds[y]] else 0
  {
    var a := skuIdMap[sku1];
    for q := 0 to |skuInOrder|
      invariant forall x, y :: 0 <= x < |skuIds| && 0 <= y < |skuIds| ==>
        matrix[x, y] == old(matrix[x, y]) + if x == a then multiset(skuInOrder[..q])[skuIds[y]] else 0
    {
      var b := skuIdMap[skuInOrder[q]];
      assert skuInOrder[..q + 1] == skuInOrder[..q] + [skuInOrder[q]];
      matrix[a, b] := matrix[a, b] + 1;
    }
    assert skuInOrder[..|skuInOrder|] == skuInOrder;
  }

  /**
   * Adds one to cell [sku1][sku2] for every ordered pair of lines of one
   * order, a line paired with itself included.
   */
  method AddOrder(matrix: array2<int>, skuIds: seq<string>, skuIdMap: map<string, int>,
                  skuInOrder: seq<string>)
    requires IsBijection(skuIds, skuIdMap)
    requires matrix.Length0 == |skuIds| && matrix.Length1 == |skuIds|
    requires forall m :: 0 <= m < |skuInOrder| ==> skuInOrder[m] in skuIdMap
    modifies matrix
    ensures forall x, y :: 0 <= x < |skuIds| && 0 <= y < |skuIds| ==>
      matrix[x, y] == old(matrix[x, y]) + OrderedPairs(skuInOrder, skuInOrder, skuIds[x], skuIds[y])
  {
    for p := 0 to |skuInOrder|
      invariant forall x, y :: 0 <= x < |skuIds| && 0 <= y < |skuIds| ==>
        matrix[x, y] == old(matrix[x, y]) + OrderedPairs(skuInOrder[..p], skuInOrder, skuIds[x], skuIds[y])
    {
      AddPairsWith(matrix, skuIds, skuIdMap, skuInOrder[p], skuInOrder);
      assert skuInOrder[..p + 1][..p] == skuInOrder[..p];
      assert forall x :: 0 <= x < |skuIds| ==> (skuIdMap[skuInOrder[p]] == x <==> skuInOrder[p] == skuIds[x]);
    }
    assert skuInOrder[..|skuInOrder|] == skuInOrder;
  }

  /** Every SKU of the log has a position in the index. */
  predicate Indexed(lines: seq<Line>, skuIdMap: map<string, int>)
  {
    forall m :: 0 <= m < |lines| ==> lines[m].sku in skuIdMap
  }

  /**
   * One pass of the scan: finds the order that starts at line `start`,
   * skips it when it has a single line and otherwise adds one to cell
   * [sku1][sku2] for every ordered pair of its lines. Returns where the next
   * order starts; the matrix has gained what this order contributes.
   */
  method ScanOrder(matrix: array2<int>, lines: seq<Line>, skuIds: seq<string>, skuIdMap: map<string, int>,
                   start: nat) returns (next: nat)
    requires IsBijection(skuIds, skuIdMap) && Indexed(lines, skuIdMap)
    requires matrix.Length0 == |skuIds| && matrix.Length1 == |skuIds|
    requires start < |lines|
    modifies matrix
    ensures next == start + RunLength(lines, start)
    ensures forall x, y :: 0 <= x < |skuIds| && 0 <= y < |skuIds| ==>
      matrix[x, y] == old(matrix[x, y]) + Contribution(lines[start..next], skuIds[x], skuIds[y])
  {
    var i := RunEnd(lines, start);
    if i == 1 {
      return start + 1;
    }
    var skuInOrder := CollectSkus(lines, start, i);
    forall m | 0 <= m < |skuInOrder| ensures skuInOrder[m] in skuIdMap {
      assert skuInOrder[m] == lines[start + m].sku;
    }
    AddOrder(matrix, skuIds, skuIdMap, skuInOrder);
    next := start + i;
  }

  /**
   * Allocates the zero K x K matrix and scans the log one order at a time.
   * Afterwards every cell [i][j] holds the co-occurrence count of SKUs
   * skuIds[i] and skuIds[j].
   */
  method BuildMatrix(lines: seq<Line>, skuIds: seq<string>, skuIdMap: map<string, int>)
    returns (matrix: array2<int>)
    requires IsBijection(skuIds, skuIdMap) && Indexed(lines, skuIdMap)
    ensures fresh(matrix)
    ensures matrix.Length0 == |skuIds| && matrix.Length1 == |skuIds|
    ensures forall i, j :: 0 <= i < |skuIds| && 0 <= j < |skuIds| ==>
      matrix[i, j] == CoOccurrence(lines, skuIds[i], skuIds[j])
  {
    var k := |skuIds|;
    matrix := new int[k, k]((i, j) => 0);
    var start := 0;
    while start < |lines|
      invariant start <= |lines|
      invariant forall x, y :: 0 <= x < k && 0 <= y < k ==>
        matrix[x, y] + CoCount(Blocks(lines, start), skuIds[x], skuIds[y])
          == CoOccurrence(lines, skuIds[x], skuIds[y])
      decreases |lines| - start
    {
      label Before:
      var next := ScanOrder(matrix, lines, skuIds, skuIdMap, start);
      forall x, y | 0 <= x < k && 0 <= y < k
        ensures matrix[x, y] + CoCount(Blocks(lines, next), skuIds[x], skuIds[y])
          == CoOccurrence(lines, skuIds[x], skuIds[y])
      {
        ScanInvariant(lines, start, next, old@Before(matrix[x, y]), matrix[x, y], skuIds[x], skuIds[y]);
      }
      start := next;
    }
  }

  /**
   * Scanning the order at `start` moves its contribution from the pending
   * orders into the cell: the cell plus what the pending orders add stays
   * the co-occurrence count.
   */
  lemma ScanInvariant(lines: seq<Line>, start: nat, next: nat, before: int, after: int, a: string, b: string)
    requires start < |lines| && next == start + RunLength(lines, start)
    requires before + CoCount(Blocks(lines, start), a, b) == CoOccurrence(lines, a, b)
    requires after == before + Contribution(lines[start..next], a, b)
    ensures after + CoCount(Blocks(lines, next), a, b) == CoOccurrence(lines, a, b)
  {
    var pending := CoCount(Blocks(lines, start), a, b);
    var order := Contribution(lines[start..next], a, b);
    CoCountStep(lines, start, next, a, b);
    assert pending == order + CoCount(Blocks(lines, next), a, b);
  }
}
