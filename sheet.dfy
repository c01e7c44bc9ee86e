/**
 * The output sheet: row i + 1 holds Sku1, Sku2 and Count of the i-th
 * ranked pair in columns A, B and C, for the first `total` pairs.
 */
module Sheet {
  import opened Pairs

  /** One written sheet row: its 1-based number and cells A, B and C. */
  datatype OutputRow = OutputRow(number: nat, cellA: string, cellB: string, cellC: int)

  /**
   * Either the rows written before the sheet is saved, or the out-of-range
   * read of `pairs[index]` that aborts the run before anything is saved.
   */
  datatype SaveResult =
    | Saved(rows: seq<OutputRow>)
    | IndexOutOfRange(index: int, length: int)

  /** The row that pair number i (0-based) is written to. */
  function RowFor(pairs: seq<SkuPair>, i: nat): OutputRow
    requires i < |pairs|
  {
    OutputRow(i + 1, pairs[i].sku1, pairs[i].sku2, pairs[i].count)
  }

  /** `rows` holds the first n pairs, pair i in row i + 1. */
  predicate WritesPrefix(rows: seq<OutputRow>, pairs: seq<SkuPair>, n: nat)
    requires n <= |pairs|
  {
    |rows| == n && forall i :: 0 <= i < n ==> rows[i] == RowFor(pairs, i)
  }

  /**
   * Writes pairs 0, 1, ..., total - 1 to rows 1, 2, ..., total. A `total`
   * of zero or less writes nothing; a `total` beyond the number of pairs
   * reads past the end of `pairs` and aborts.
   */
  method Save(pairs: seq<SkuPair>, total: int) returns (result: SaveResult)
    ensures result.IndexOutOfRange? <==> total > |pairs|
    ensures result.IndexOutOfRange? ==> result.index == |pairs| == result.length
    ensures result.Saved? ==> total <= |pairs| && WritesPrefix(result.rows, pairs, if total < 0 then 0 else total)
  {
    var rows: seq<OutputRow> := [];
    var i := 0;
    while i < total
      invariant 0 <= i <= (if total < 0 then 0 else total)
      invariant i <= |pairs| && WritesPrefix(rows, pairs, i)
      decreases total - i
    {
      if i >= |pairs| {
        return IndexOutOfRange(i, |pairs|);
      }
      rows := rows + [RowFor(pairs, i)];
      i := i + 1;
    }
    return Saved(rows);
  }

  /** What a successful save writes is determined by the pairs and `total`. */
  lemma WritesPrefixUnique(r1: seq<OutputRow>, r2: seq<OutputRow>, pairs: seq<SkuPair>, n: nat)
    requires n <= |pairs|
    requires WritesPrefix(r1, pairs, n) && WritesPrefix(r2, pairs, n)
    ensures r1 == r2
  {
  }

  /** The rows written hold, in order, exactly the first n pairs. */
  lemma {:induction false} WritesPrefixContents(rows: seq<OutputRow>, pairs: seq<SkuPair>, n: nat)
    requires n <= |pairs| && WritesPrefix(rows, pairs, n)
    ensures forall i :: 0 <= i < n ==> rows[i].number == i + 1
    ensures Cells(rows) == pairs[..n]
  {
    if n > 0 {
      var init := rows[..n - 1];
      assert WritesPrefix(init, pairs, n - 1);
      WritesPrefixContents(init, pairs, n - 1);
      assert rows == init + [rows[n - 1]];
      assert pairs[..n] == pairs[..n - 1] + [pairs[n - 1]];
    }
  }

  /** The (A, B, C) cells of the rows, read back as pairs. */
  function Cells(rows: seq<OutputRow>): seq<SkuPair>
  {
    if rows == [] then []
    else Cells(rows[..|rows| - 1]) + [SkuPair(rows[|rows| - 1].cellA, rows[|rows| - 1].cellB, rows[|rows| - 1].cellC)]
  }
}
