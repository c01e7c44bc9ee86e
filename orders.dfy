/**
 * The order log as read from the input sheet, and its grouping into orders.
 *
 * A sheet row is a list of cells; column 0 holds the SKU id and column 1
 * the order id, and no other column is read. Rows of one order are
 * expected to be adjacent: an order is a maximal block of adjacent lines
 * that share their order id.
 */
module OrderLog {

  /** One sheet row as read: a list of cells. */
  type SheetRow = seq<string>

  /** The two cells of a row that are read: column 0 and column 1. */
  datatype Line = Line(sku: string, orderId: string)

  /**
   * The rows the scan can read without going out of range: every row has
   * its SKU cell, and every row has its order cell unless the log is a
   * single row, whose order id is never compared with anything.
   */
  predicate WellFormed(rows: seq<SheetRow>)
  {
    && (forall k :: 0 <= k < |rows| ==> |rows[k]| >= 1)
    && (|rows| == 1 || forall k :: 0 <= k < |rows| ==> |rows[k]| >= 2)
  }

  /**
   * The log as lines: row k is read as Line(rows[k][0], rows[k][1]). The
   * order cell of a lone one-cell row is never read; it becomes "".
   */
  function Lines(rows: seq<SheetRow>): (lines: seq<Line>)
    requires WellFormed(rows)
    ensures |lines| == |rows|
    ensures forall k :: 0 <= k < |rows| ==> lines[k].sku == rows[k][0]
    ensures forall k :: 0 <= k < |rows| && |rows[k]| >= 2 ==> lines[k].orderId == rows[k][1]
  {
    seq(|rows|, k requires 0 <= k < |rows| => Line(rows[k][0], if |rows[k]| >= 2 then rows[k][1] else ""))
  }

  /** The SKU column of `lines`, in line order. */
  function Skus(lines: seq<Line>): seq<string>
  {
    seq(|lines|, k requires 0 <= k < |lines| => lines[k].sku)
  }

  /** The distinct SKU ids that occur in the SKU column. */
  function SkuSet(lines: seq<Line>): set<string>
  {
    set k | 0 <= k < |lines| :: lines[k].sku
  }

  /** No element of `s` occurs twice. */
  predicate Distinct<T(==)>(s: seq<T>)
  {
    forall p, q :: 0 <= p < q < |s| ==> s[p] != s[q]
  }

  /** A block of lines that forms one order: non-empty, one order id throughout. */
  predicate IsOrder(block: seq<Line>)
  {
    && |block| >= 1
    && forall m :: 0 <= m < |block| ==> block[m].orderId == block[0].orderId
  }

  /**
   * `blocks` is a sequence of orders in which neighbouring orders have
   * different order ids.
   */
  predicate Grouped(blocks: seq<seq<Line>>)
  {
    && (forall k {:trigger blocks[k]} :: 0 <= k < |blocks| ==> IsOrder(blocks[k]))
    && (forall j, k {:trigger blocks[j], blocks[k]} ::
          0 <= j < |blocks| && 0 <= k < |blocks| && k == j + 1 ==> blocks[j][0].orderId != blocks[k][0].orderId)
  }

  /** The lines of a partition, in order. */
  function Flatten(blocks: seq<seq<Line>>): seq<Line>
  {
    if blocks == [] then [] else blocks[0] + Flatten(blocks[1..])
  }

  /**
   * The length of the order that starts at line `start`: line `start` plus
   * the lines after it, as long as each carries the order id of its
   * predecessor.
   */
  function RunLength(lines: seq<Line>, start: nat): (n: nat)
    requires start < |lines|
    ensures 1 <= n <= |lines| - start
    decreases |lines| - start
  {
    if start + 1 < |lines| && lines[start + 1].orderId == lines[start].orderId then
      1 + RunLength(lines, start + 1)
    else
      1
  }

  /**
   * The order starting at `start` is the longest run of lines from `start`
   * on that carry the order id of line `start`.
   */
  lemma {:induction false} RunLengthMaximal(lines: seq<Line>, start: nat)
    requires start < |lines|
    ensures forall k :: start <= k < start + RunLength(lines, start) ==> lines[k].orderId == lines[start].orderId
    ensures start + RunLength(lines, start) == |lines|
      || lines[start + RunLength(lines, start)].orderId != lines[start].orderId
    decreases |lines| - start
  {
    if start + 1 < |lines| && lines[start + 1].orderId == lines[start].orderId {
      RunLengthMaximal(lines, start + 1);
    }
  }

  /** Being such a longest run determines the length of the order. */
  lemma {:induction false} RunLengthUnique(lines: seq<Line>, start: nat, m: nat)
    requires start < |lines|
    requires 1 <= m <= |lines| - start
    requires forall k :: start <= k < start + m ==> lines[k].orderId == lines[start].orderId
    requires start + m == |lines| || lines[start + m].orderId != lines[start].orderId
    ensures m == RunLength(lines, start)
    decreases m
  {
    if m > 1 {
      assert lines[start + 1].orderId == lines[start].orderId;
      RunLengthUnique(lines, start + 1, m - 1);
    }
  }

  /**
   * The orders of `lines[start..]`, in input order: line `start` and the
   * lines after it that share its order id form the first order, and the
   * grouping resumes after them.
   */
  function Blocks(lines: seq<Line>, start: nat): seq<seq<Line>>
    requires start <= |lines|
    decreases |lines| - start
  {
    if start == |lines| then
      []
    else
      var n := RunLength(lines, start);
      [lines[start..start + n]] + Blocks(lines, start + n)
  }

  /** The orders from line `start` on: the one starting there, then the rest. */
  lemma BlocksUnfold(lines: seq<Line>, start: nat)
    requires start < |lines|
    ensures Blocks(lines, start)
      == [lines[start..start + RunLength(lines, start)]] + Blocks(lines, start + RunLength(lines, start))
  {
  }

  /** Together the orders are the lines from `start` on, in input order. */
  lemma {:induction false} BlocksFlatten(lines: seq<Line>, start: nat)
    requires start <= |lines|
    ensures Flatten(Blocks(lines, start)) == lines[start..]
    decreases |lines| - start
  {
    if start < |lines| {
      var n := RunLength(lines, start);
      BlocksFlatten(lines, start + n);
      BlocksUnfold(lines, start);
      assert lines[start..] == lines[start..start + n] + lines[start + n..];
    }
  }

  /**
   * Each order is non-empty with one order id, and neighbouring orders have
   * different order ids.
   */
  lemma {:induction false} BlocksGrouped(lines: seq<Line>, start: nat)
    requires start <= |lines|
    ensures Grouped(Blocks(lines, start))
    decreases |lines| - start
  {
    if start < |lines| {
      var n := RunLength(lines, start);
      var first := lines[start..start + n];
      var rest := Blocks(lines, start + n);
      BlocksGrouped(lines, start + n);
      BlocksUnfold(lines, start);
      RunLengthMaximal(lines, start);
      if start + n < |lines| {
        BlocksHead(lines, start + n);
      }
      GroupedCons(first, rest);
    }
  }

  /** The first order from line `start` on begins with that line. */
  lemma BlocksHead(lines: seq<Line>, start: nat)
    requires start < |lines|
    ensures Blocks(lines, start) != [] && Blocks(lines, start)[0] != []
    ensures Blocks(lines, start)[0][0] == lines[start]
  {
    BlocksUnfold(lines, start);
  }

  /** An order in front of a grouped partition whose first order id differs. */
  lemma GroupedCons(first: seq<Line>, rest: seq<seq<Line>>)
    requires IsOrder(first) && Grouped(rest)
    requires rest != [] ==> rest[0] != [] && first[0].orderId != rest[0][0].orderId
    ensures Grouped([first] + rest)
  {
    var blocks := [first] + rest;
    forall k | 0 <= k < |blocks| ensures IsOrder(blocks[k]) {
      if k > 0 {
        assert blocks[k] == rest[k - 1];
      }
    }
    forall j, k | 0 <= j < |blocks| && 0 <= k < |blocks| && k == j + 1
      ensures blocks[j][0].orderId != blocks[k][0].orderId
    {
      if j > 0 {
        assert blocks[j] == rest[j - 1] && blocks[k] == rest[k - 1];
      }
    }
  }

  /** The orders of the whole log. */
  function Orders(lines: seq<Line>): seq<seq<Line>>
  {
    Blocks(lines, 0)
  }

  /**
   * The orders of the log partition it into maximal blocks of adjacent lines
   * with equal order id, in input order.
   */
  lemma OrdersPartition(lines: seq<Line>)
    ensures Flatten(Orders(lines)) == lines
    ensures Grouped(Orders(lines))
  {
    BlocksFlatten(lines, 0);
    BlocksGrouped(lines, 0);
    assert lines[0..] == lines;
  }

  /** Dropping the first order of a grouped partition keeps it grouped. */
  lemma GroupedTail(parts: seq<seq<Line>>)
    requires Grouped(parts) && parts != []
    ensures Grouped(parts[1..])
  {
    forall k | 0 <= k < |parts| - 1 ensures IsOrder(parts[1..][k]) {
      assert parts[1..][k] == parts[k + 1];
    }
    forall j, k | 0 <= j < |parts| - 1 && 0 <= k < |parts| - 1 && k == j + 1
      ensures parts[1..][j][0].orderId != parts[1..][k][0].orderId
    {
      assert parts[1..][j] == parts[j + 1] && parts[1..][k] == parts[k + 1];
    }
  }

  /** A partition into non-empty blocks has at least as many lines as blocks. */
  lemma {:induction false} FlattenCoversParts(parts: seq<seq<Line>>)
    requires forall k :: 0 <= k < |parts| ==> |parts[k]| >= 1
    ensures |Flatten(parts)| >= |parts|
  {
    if parts != [] {
      assert forall k :: 0 <= k < |parts| - 1 ==> parts[1..][k] == parts[k + 1];
      FlattenCoversParts(parts[1..]);
    }
  }

  lemma HeadTail<T>(s: seq<T>, head: T, tail: seq<T>)
    requires s != [] && s[0] == head && s[1..] == tail
    ensures s == [head] + tail
  {
  }

  /** The first block of a partition of `lines[start..]` is a prefix of it. */
  lemma PartsSplit(lines: seq<Line>, start: nat, parts: seq<seq<Line>>)
    requires start < |lines| && Flatten(parts) == lines[start..]
    ensures parts != [] && |parts[0]| <= |lines| - start
    ensures parts[0] == lines[start..start + |parts[0]|]
    ensures Flatten(parts[1..]) == lines[start + |parts[0]|..]
  {
    var m := |parts[0]|;
    assert lines[start..] == parts[0] + Flatten(parts[1..]);
    assert lines[start..][..m] == lines[start..start + m];
    assert lines[start..][m..] == lines[start + m..];
  }

  /**
   * The first block of a grouped partition of `lines[start..]` is the order
   * that starts at `start`, and the other blocks partition what follows it.
   */
  lemma FirstPartIsFirstOrder(lines: seq<Line>, start: nat, parts: seq<seq<Line>>)
    requires start < |lines|
    requires Flatten(parts) == lines[start..]
    requires Grouped(parts)
    ensures parts != [] && |parts[0]| == RunLength(lines, start)
    ensures parts[0] == lines[start..start + |parts[0]|]
    ensures Flatten(parts[1..]) == lines[start + |parts[0]|..]
    ensures Grouped(parts[1..])
  {
    PartsSplit(lines, start, parts);
    var m := |parts[0]|;
    assert IsOrder(parts[0]);
    forall k | start <= k < start + m ensures lines[k].orderId == lines[start].orderId {
      assert lines[k] == parts[0][k - start];
    }
    if start + m < |lines| {
      PartsSplit(lines, start + m, parts[1..]);
      assert parts[1..][0] == parts[1];
      assert parts[0][0].orderId != parts[1][0].orderId;
    }
    RunLengthUnique(lines, start, m);
    GroupedTail(parts);
  }

  /**
   * The grouping into orders is the only partition of the lines into
   * non-empty single-order blocks whose neighbours differ in order id.
   */
  lemma {:induction false} MaximalRunsUnique(lines: seq<Line>, start: nat, parts: seq<seq<Line>>)
    requires start <= |lines|
    requires Flatten(parts) == lines[start..]
    requires Grouped(parts)
    ensures parts == Blocks(lines, start)
    decreases |lines| - start
  {
    if start < |lines| {
      FirstPartIsFirstOrder(lines, start, parts);
      MaximalRunsUnique(lines, start + |parts[0]|, parts[1..]);
      BlocksFromFirst(lines, start, parts);
    } else {
      FlattenCoversParts(parts);
      assert |parts| == 0;
    }
  }

  /** A first order followed by the orders after it are the orders from `start` on. */
  lemma BlocksFromFirst(lines: seq<Line>, start: nat, parts: seq<seq<Line>>)
    requires start < |lines| && parts != []
    requires |parts[0]| == RunLength(lines, start)
    requires parts[0] == lines[start..start + |parts[0]|]
    requires parts[1..] == Blocks(lines, start + |parts[0]|)
    ensures parts == Blocks(lines, start)
  {
    var m := |parts[0]|;
    HeadTail(parts, lines[start..start + m], Blocks(lines, start + m));
    BlocksUnfold(lines, start);
  }
}
