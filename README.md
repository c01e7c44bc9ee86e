# SKU pair co-occurrence, modelled in Dafny

The program reads an order log from a spreadsheet: one row per order
line, the SKU id in column A and the order id in column B, rows of one
order adjacent. It counts how often two SKUs are bought in the same order
and writes the `total` most frequent SKU pairs to a new sheet.

The run has these steps, each modelled by a method with loops and
invariants and specified by pure functions:

1. **Index** (`SkuIndex.BuildIndex`): the distinct SKU ids go into a map
   and are then numbered 0..K-1 in the map's iteration order. The method
   returns `skuIds` (position to SKU) and `skuIdMap` (SKU to position), and
   they are proved inverse to each other and to cover exactly the SKUs of
   the log.
2. **Accumulate** (`Accumulator.BuildMatrix`): a zero K x K `array2<int>` is
   filled by scanning the log one order at a time. An order is a maximal
   run of adjacent lines with the same order id (`OrderLog.RunLength`,
   `OrderLog.Blocks`). A single-line order is skipped. Otherwise every
   ordered pair of its lines, a line paired with itself included, adds one
   to cell [sku1][sku2]. Each cell is proved to end up equal to
   `CoOccurrenceSpec.CoOccurrence`, the sum over the orders of what each
   order contributes.
3. **Extract** (`Pairs.ExtractPairs`): the cells above the diagonal are
   read row by row into `SkuPair(sku1, sku2, count)` records, in the
   row-major order `Pairs.UpperPositions`.
4. **Rank** (`Ranking.Rank`): the records are sorted by count, largest
   first, with a stable sort, so equal counts keep their order.
5. **Save** (`Sheet.Save`): the first `total` records are written to rows
   1..total, columns A, B and C.

`Pipeline.Analyse` chains the five steps. Its contract states the whole
result:

- the ranked records are a stable descending permutation of the expected
  pairs, one per two-element set of SKUs, each with its co-occurrence count;
- there are K(K-1)/2 of them;
- the save either writes the first `total` of them or fails with an
  out-of-range read.

A note on what is counted. The code adds 1 to cell [a][b] for every
ordered pair of lines with SKUs a and b. So an order adds mult(a) *
mult(b) to that cell, where mult(s) is the number of the order's lines
carrying SKU s. The diagonal counts a SKU with itself. When an order
lists each SKU once, the pair {a, b} gains 1 in cell [a][b] and 1 in
cell [b][a]. The extracted record reads only [a][b] with a before b, so
each order adds 1 to the pair's count, not 2. The relevant
lemmas are `CoOccurrenceSpec.ContributionProduct` and
`CoOccurrenceSpec.DistinctOrderAddsOne`.

Modules, one per file: `OrderLog` (orders.dfy), `CoOccurrenceSpec`
(cooccurrence.dfy), `SkuIndex` (sku_index.dfy), `Accumulator`
(accumulator.dfy), `Pairs` (pairs.dfy), `Ranking` (ranking.dfy), `Sheet`
(sheet.dfy), `Pipeline` (pipeline.dfy).

## Model

| member | source | states |
|---|---|---|
| OrderLog.Lines | main.go:88-100 | one line per row; row k gives the SKU rows[k][0] and, when it has an order cell, the order id rows[k][1] |
| OrderLog.RunLengthMaximal | main.go:89-92 | every line of the order found at `start` has the order id of line `start`, and the line after the order (if any) has a different order id |
| OrderLog.RunLengthUnique | main.go:89-92 | any such maximal run from `start` has exactly the length the scan finds |
| OrderLog.BlocksFlatten | main.go:88-108 | the orders, concatenated, are exactly the lines from `start` on, in input order |
| OrderLog.BlocksGrouped | main.go:88-108 | every order is non-empty with one order id, and neighbouring orders have different order ids |
| OrderLog.OrdersPartition | main.go:84-108 | the orders of the log partition it, in order, into maximal single-order blocks |
| OrderLog.MaximalRunsUnique | main.go:84-108 | any partition of the lines into non-empty single-order blocks with differing neighbours is the grouping the scan makes |
| SkuIndex.BijectionLists | main.go:69-75 | an index lists each SKU once, and lists exactly the SKUs in its map |
| SkuIndex.BuildIndex | main.go:61-75 | the map's keys are exactly the SKUs of column A; positions 0..K-1 and SKUs are in one-to-one correspondence; K is the number of distinct SKUs |
| CoOccurrenceSpec.OrderedPairsProduct | main.go:102-106 | counting the ordered pairs (sku1, sku2) with sku1 == a and sku2 == b gives mult(a) * mult(b) |
| CoOccurrenceSpec.ContributionProduct | main.go:93-106 | an order adds nothing to a cell when it has one line, and mult(a) * mult(b) to cell [a][b] otherwise |
| CoOccurrenceSpec.CoCountStep | main.go:88-108 | what the orders from `start` on add to a cell is what the order at `start` adds plus what the later orders add |
| CoOccurrenceSpec.CoCountSymmetric | main.go:102-106 | over any sequence of orders, cells [a][b] and [b][a] receive the same total |
| CoOccurrenceSpec.CoOccurrenceSymmetric | main.go:102-106 | the final matrix is symmetric |
| CoOccurrenceSpec.SingleLineOrdersCountNothing | main.go:93-97 | orders of one line each leave every cell at zero |
| CoOccurrenceSpec.NoSharedOrderIdSingleLines | main.go:89-97 | when no two adjacent lines share an order id, every order has exactly one line |
| CoOccurrenceSpec.NoMultiLineOrderNoCount | main.go:88-108 | a log with no two adjacent lines sharing an order id yields an all-zero matrix |
| CoOccurrenceSpec.DistinctMultiplicity | main.go:98-101 | in a SKU list without repetitions each SKU occurs once or not at all |
| CoOccurrenceSpec.DistinctOrderAddsOne | main.go:102-105 | an order of two or more lines with no repeated SKU adds exactly 1 to cell [a][b] when both a and b occur in it, and 0 otherwise |
| CoOccurrenceSpec.OccurrencesSnoc | main.go:98-101 | appending one line raises the summed multiplicities of a repetition-free SKU list by one exactly when the list holds that line's SKU |
| CoOccurrenceSpec.OccurrencesCountLines | main.go:98-101 | over a repetition-free list covering the order's SKUs, the multiplicities add up to the number of lines |
| CoOccurrenceSpec.RowTotalFactors | main.go:103-105 | what an order adds to row a, over a list of columns, is mult(a) times the occurrences of those columns' SKUs |
| CoOccurrenceSpec.GridTotalFactors | main.go:102-106 | what an order adds to a block of cells is the product of the occurrences of the row SKUs and of the column SKUs |
| CoOccurrenceSpec.OrderAddsSquareOfLength | main.go:98-106 | an order of m >= 2 lines adds m * m to the matrix in total |
| CoOccurrenceSpec.WorkedExample | main.go:88-108 | the log (S1,O1), (S2,O1), (S1,O2) gives count 1 for (S1,S2), (S2,S1), (S1,S1) and (S2,S2): the single-line order O2 adds nothing |
| Accumulator.RunEnd | main.go:89-92 | the window grown from `start` stops at the length of the order that starts there |
| Accumulator.CollectSkus | main.go:98-101 | the collected list is the SKU column of the order, in line order |
| Accumulator.AddPairsWith | main.go:103-105 | row `skuIdMap[sku1]` gains, in each column, the multiplicity of that column's SKU in the order; every other cell is unchanged |
| Accumulator.AddOrder | main.go:102-106 | every cell [x][y] gains the number of ordered pairs of the order's lines with SKUs skuIds[x] and skuIds[y] |
| Accumulator.ScanOrder | main.go:88-107 | the scan continues after the order that starts at `start`; every cell gains that order's contribution, which is nothing for a single line |
| Accumulator.ScanInvariant | main.go:88-108 | after one order is scanned, the cell plus what the remaining orders add is still the cell's final co-occurrence count |
| Accumulator.BuildMatrix | main.go:77-108 | a fresh K x K matrix in which cell [i][j] is the co-occurrence count of skuIds[i] and skuIds[j] |
| Pairs.RowPositions | main.go:113 | row i has the positions (i, i+1) .. (i, k-1), by increasing column |
| Pairs.PositionsBeforeCount | main.go:112-120 | rows 0..i-1 hold i(2k-i-1)/2 positions above the diagonal |
| Pairs.UpperPositionsCount | main.go:111-120 | K SKUs give K(K-1)/2 pairs |
| Pairs.PositionsBeforeAscending | main.go:112-120 | the positions of rows 0..i-1 are listed in strictly increasing row-major order |
| Pairs.UpperPositionsAscending | main.go:111-120 | the pairs come in strictly increasing row-major order, so no position is read twice |
| Pairs.PositionsBeforeComplete | main.go:112-120 | position (a, b) with a < b is listed at offset b - a - 1 after the rows before a |
| Pairs.UpperPositionsComplete | main.go:111-120 | every position above the diagonal is read |
| Pairs.ExtractPairs | main.go:110-120 | record p holds SKUs i and j and cell [i][j], where (i, j) is the p-th position above the diagonal in row-major order |
| Ranking.WithCountConcat | main.go:123-125 | the records with a given count of a concatenation are those of each part, in order |
| Ranking.SwapKeepsFilters | main.go:123-125 | exchanging neighbours with different counts keeps the records, and for every count the order of the records with that count |
| Ranking.InsertStart | main.go:123-125 | before record i moves, the records before it are in order |
| Ranking.InsertStep | main.go:123-125 | moving record i one place left past a smaller count keeps the rest in order, and record i stays above every record it has passed |
| Ranking.InsertDone | main.go:123-125 | once record i has stopped moving, a[..i+1] is sorted by count, largest first |
| Ranking.InsertRecord | main.go:123-125 | inserting record i makes a[..i+1] sorted, largest count first, leaves the records after i in place, and keeps the records and the order of equal counts |
| Ranking.StableSortByCount | main.go:123-125 | the array ends sorted by count, largest first, as a permutation of its old contents in which equal counts keep their order |
| Ranking.Rank | main.go:122-125 | the ranked list is sorted by count, largest first, a permutation of the pairs, with equal counts in their given order |
| Ranking.SameFiltersTransitive | main.go:123-125 | keeping the order of equal counts composes over successive steps |
| Ranking.WithCountMember | main.go:123-125 | some record has count c exactly when the records with count c are not empty |
| Ranking.SortedFiltersDetermine | main.go:123-125 | there is exactly one stable descending order: two sorted lists with the same records of each count, in the same order, are equal |
| Sheet.Save | main.go:133-142 | fails at index \|pairs\| exactly when total > \|pairs\|; otherwise writes pair i to row i+1 for i < total, and nothing when total <= 0 |
| Sheet.WritesPrefixUnique | main.go:138-142 | what a successful save writes is determined by the pairs and `total` |
| Sheet.WritesPrefixContents | main.go:138-142 | the rows are numbered 1..n, and read back as (A, B, C) they are exactly the first n pairs |
| Pipeline.ExpectedPairs | main.go:110-120 | there is one expected pair per position above the diagonal |
| Pipeline.ExpectedPairsDistinctSkus | main.go:111-120 | with every SKU indexed once, each pair names two different SKUs, and its count does not depend on which SKU comes first |
| Pipeline.IndexCoversLog | main.go:61-75 | the index built from the log has a position for every line's SKU |
| Pipeline.CountPairs | main.go:61-120 | the index lists each SKU of the log once, and the extracted pairs are the expected pairs for that index |
| Pipeline.PermutationKeepsDistinctSkus | main.go:122-125 | ranking does not create a pair whose two SKUs are equal |
| Pipeline.Analyse | main.go:61-128 | the whole run: the index covers exactly the log's SKUs; the K(K-1)/2 ranked pairs are a stable descending permutation of the expected pairs, each naming two different SKUs; the save outcome is as in `Sheet.Save` |

## Left out

- Spreadsheet I/O is not modelled: opening the input workbook, reading "Sheet1", creating the output workbook, and the timestamped `SaveAs` file name. The rows are a parameter, and the written rows are a result value. A failing open, read or save, which the program prints and then stops or ignores, is not modelled.
- Command-line parsing in `init` is not modelled. `total` is a parameter of `Pipeline.Analyse` and `Sheet.Save`, and its default of 100 plays no role.
- The progress log lines are not modelled.
- Go's random map iteration order is not modelled as such. `SkuIndex.BuildIndex` numbers the SKUs in an arbitrary order (any not-yet-numbered key at each step), and every property holds for every such order.
- Inputs on which the scan reads past the end of a row, panicking before anything is saved, are excluded by the `OrderLog.WellFormed` precondition of `Pipeline.Analyse` rather than modelled as an error: an empty row (it panics on `row[0]` at main.go:63), and, in a log of two or more rows, a row with fewer than two cells (every such row's order cell is compared at main.go:90). A log of a single one-cell row never has its order cell read, and it is modelled: it yields one SKU and no pairs.
- The panic when `total` exceeds the number of pairs is modelled as the `IndexOutOfRange` result of `Sheet.Save`. Nothing is written in that case.
- Ranking.StableSortByCount: `sort.SliceStable`'s own algorithm (insertion sort on blocks plus symmerge) is not modelled. It is replaced by an in-place stable insertion sort, and both are pinned down by the same contract: sorted, a permutation, and stable. `Ranking.SortedFiltersDetermine` shows that this contract admits exactly one result.
- The counts are unbounded integers, and 64-bit wrap-around is not modelled. A sheet holds at most 1,048,576 rows, so no cell can come near 2^63.
- The matrix is one `array2<int>` rather than a slice of K row slices. No row is shared or aliased in the source, so only the representation differs.
- Logs whose order ids are not adjacent are modelled exactly as the code treats them: each maximal run of equal order ids counts as its own order.
