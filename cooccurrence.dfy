/**
 * What the co-occurrence matrix should hold once the whole log is scanned.
 *
 * For every order of two or more lines, every ordered pair of its lines
 * (a line paired with itself included) adds one to the cell of their two
 * SKUs, and a single-line order adds nothing. So one order adds
 * mult(a) * mult(b) to cell [a][b], where mult(s) is the number of its
 * lines that carry SKU s.
 */
module CoOccurrenceSpec {
  import opened OrderLog

  /** How many lines of `order` carry SKU `s`. */
  function Mult(order: seq<Line>, s: string): nat
  {
    multiset(Skus(order))[s]
  }

  /**
   * What one order adds to cell [a][b]: nothing for a single line, else one
   * for every ordered pair of its lines with SKUs a and b.
   */
  function Contribution(order: seq<Line>, a: string, b: string): nat
  {
    if |order| < 2 then 0 else OrderedPairs(Skus(order), Skus(order), a, b)
  }

  /**
   * The number of ordered pairs (p, q) with firsts[p] == a and
   * seconds[q] == b, counted one first element at a time.
   */
  function OrderedPairs(firsts: seq<string>, seconds: seq<string>, a: string, b: string): nat
  {
    if firsts == [] then 0
    else
      OrderedPairs(firsts[..|firsts| - 1], seconds, a, b)
      + if firsts[|firsts| - 1] == a then multiset(seconds)[b] else 0
  }

  /** Counting ordered pairs one by one yields mult(a) * mult(b). */
  lemma {:induction false} OrderedPairsProduct(firsts: seq<string>, seconds: seq<string>, a: string, b: string)
    ensures OrderedPairs(firsts, seconds, a, b) == multiset(firsts)[a] * multiset(seconds)[b]
  {
    if firsts != [] {
      var init := firsts[..|firsts| - 1];
      assert firsts == init + [firsts[|firsts| - 1]];
      OrderedPairsProduct(init, seconds, a, b);
      var c, d := multiset(init)[a], multiset(seconds)[b];
      Distribute(c, 1, d);
    }
  }

  /** An order of two or more lines adds mult(a) * mult(b) to cell [a][b]. */
  lemma ContributionProduct(order: seq<Line>, a: string, b: string)
    ensures Contribution(order, a, b) == if |order| < 2 then 0 else Mult(order, a) * Mult(order, b)
  {
    OrderedPairsProduct(Skus(order), Skus(order), a, b);
  }

  lemma Distribute(m: int, r: int, t: int)
    ensures (m + r) * t == m * t + r * t
    ensures t * (m + r) == t * m + t * r
  {
  }

  /** Cell [a][b] accumulated over a sequence of orders. */
  function CoCount(orders: seq<seq<Line>>, a: string, b: string): nat
  {
    if orders == [] then 0 else Contribution(orders[0], a, b) + CoCount(orders[1..], a, b)
  }

  /** Cell [a][b] of the matrix built from the whole log. */
  function CoOccurrence(lines: seq<Line>, a: string, b: string): nat
  {
    CoCount(Orders(lines), a, b)
  }

  /**
   * What the orders from line `start` on add to cell [a][b] is what the
   * order starting at `start` adds plus what the orders after it add.
   */
  lemma CoCountStep(lines: seq<Line>, start: nat, next: nat, a: string, b: string)
    requires start < |lines| && next == start + RunLength(lines, start)
    ensures CoCount(Blocks(lines, start), a, b) == Contribution(lines[start..next], a, b) + CoCount(Blocks(lines, next), a, b)
  {
    BlocksUnfold(lines, start);
  }

  lemma {:induction false} CoCountSymmetric(orders: seq<seq<Line>>, a: string, b: string)
    ensures CoCount(orders, a, b) == CoCount(orders, b, a)
  {
    if orders != [] {
      CoCountSymmetric(orders[1..], a, b);
      ContributionProduct(orders[0], a, b);
      ContributionProduct(orders[0], b, a);
    }
  }

  /** The matrix is symmetric: cell [a][b] always equals cell [b][a]. */
  lemma CoOccurrenceSymmetric(lines: seq<Line>, a: string, b: string)
    ensures CoOccurrence(lines, a, b) == CoOccurrence(lines, b, a)
  {
    CoCountSymmetric(Orders(lines), a, b);
  }

  /** Orders of one line each add nothing to any cell. */
  lemma {:induction false} SingleLineOrdersCountNothing(orders: seq<seq<Line>>, a: string, b: string)
    requires forall k :: 0 <= k < |orders| ==> |orders[k]| < 2
    ensures CoCount(orders, a, b) == 0
  {
    if orders != [] {
      assert forall k :: 0 <= k < |orders| - 1 ==> orders[1..][k] == orders[k + 1];
      SingleLineOrdersCountNothing(orders[1..], a, b);
    }
  }

  /** When no two adjacent lines share an order id, every order is a single line. */
  lemma {:induction false} NoSharedOrderIdSingleLines(lines: seq<Line>, start: nat)
    requires start <= |lines|
    requires forall k :: 0 < k < |lines| ==> lines[k - 1].orderId != lines[k].orderId
    ensures forall k :: 0 <= k < |Blocks(lines, start)| ==> |Blocks(lines, start)[k]| == 1
    decreases |lines| - start
  {
    if start < |lines| {
      NoSharedOrderIdSingleLines(lines, start + 1);
      assert RunLength(lines, start) == 1;
      var rest := Blocks(lines, start + 1);
      assert Blocks(lines, start) == [lines[start..start + 1]] + rest;
    }
  }

  /** A log in which every order has one line yields an all-zero matrix. */
  lemma NoMultiLineOrderNoCount(lines: seq<Line>, a: string, b: string)
    requires forall k :: 0 < k < |lines| ==> lines[k - 1].orderId != lines[k].orderId
    ensures CoOccurrence(lines, a, b) == 0
  {
    NoSharedOrderIdSingleLines(lines, 0);
    SingleLineOrdersCountNothing(Orders(lines), a, b);
  }

  /** In a sequence without repetitions every element occurs exactly once. */
  lemma {:induction false} DistinctMultiplicity(s: seq<string>, x: string)
    requires Distinct(s)
    ensures multiset(s)[x] == if x in s then 1 else 0
  {
    if s != [] {
      assert s == [s[0]] + s[1..];
      assert Distinct(s[1..]) by {
        forall p, q | 0 <= p < q < |s| - 1 ensures s[1..][p] != s[1..][q] {
          assert s[1..][p] == s[p + 1] && s[1..][q] == s[q + 1];
        }
      }
      DistinctMultiplicity(s[1..], x);
      assert s[0] !in s[1..] by {
        forall q | 0 <= q < |s| - 1 ensures s[1..][q] != s[0] {
          assert s[1..][q] == s[q + 1];
        }
      }
    }
  }

  /**
   * An order with at least two lines and no repeated SKU adds exactly 1 to
   * cell [a][b] for any two of its SKUs, a != b included, and nothing to
   * any other cell: the pair {a, b} gains 1 in each of its two cells.
   */
  lemma DistinctOrderAddsOne(order: seq<Line>, a: string, b: string)
    requires |order| >= 2
    requires Distinct(Skus(order))
    ensures Contribution(order, a, b) == if a in Skus(order) && b in Skus(order) then 1 else 0
  {
    ContributionProduct(order, a, b);
    DistinctMultiplicity(Skus(order), a);
    DistinctMultiplicity(Skus(order), b);
  }

  /** The sum over `ids` of how often each occurs in `skus`. */
  function Occurrences(ids: seq<string>, skus: seq<string>): nat
  {
    if ids == [] then 0 else multiset(skus)[ids[0]] + Occurrences(ids[1..], skus)
  }

  lemma {:induction false} OccurrencesSnoc(ids: seq<string>, skus: seq<string>, c: string)
    requires Distinct(ids)
    ensures Occurrences(ids, skus + [c]) == Occurrences(ids, skus) + (if c in ids then 1 else 0)
  {
    if ids != [] {
      assert Distinct(ids[1..]) by {
        forall p, q | 0 <= p < q < |ids| - 1 ensures ids[1..][p] != ids[1..][q] {
          assert ids[1..][p] == ids[p + 1] && ids[1..][q] == ids[q + 1];
        }
      }
      OccurrencesSnoc(ids[1..], skus, c);
      assert c in ids <==> c == ids[0] || c in ids[1..] by {
        assert ids == [ids[0]] + ids[1..];
      }
      assert ids[0] !in ids[1..] by {
        forall q | 0 <= q < |ids| - 1 ensures ids[1..][q] != ids[0] {
          assert ids[1..][q] == ids[q + 1];
        }
      }
    }
  }

  /**
   * Listing every SKU of `skus` once in `ids`, the multiplicities of the
   * listed SKUs add up to the number of lines.
   */
  lemma {:induction false} OccurrencesCountLines(ids: seq<string>, skus: seq<string>)
    requires Distinct(ids)
    requires forall k :: 0 <= k < |skus| ==> skus[k] in ids
    ensures Occurrences(ids, skus) == |skus|
  {
    if skus == [] {
      OccurrencesOfNothing(ids);
    } else {
      var init := skus[..|skus| - 1];
      assert skus == init + [skus[|skus| - 1]];
      OccurrencesCountLines(ids, init);
      OccurrencesSnoc(ids, init, skus[|skus| - 1]);
    }
  }

  lemma {:induction false} OccurrencesOfNothing(ids: seq<string>)
    ensures Occurrences(ids, []) == 0
  {
    if ids != [] {
      OccurrencesOfNothing(ids[1..]);
    }
  }

  /** What one order adds to the cells [a][b] for every b listed in `ids`. */
  function RowTotal(order: seq<Line>, a: string, ids: seq<string>): nat
  {
    if ids == [] then 0 else Contribution(order, a, ids[0]) + RowTotal(order, a, ids[1..])
  }

  /** What one order adds to the cells [a][b] for every a in `xs` and b in `ids`. */
  function GridTotal(order: seq<Line>, xs: seq<string>, ids: seq<string>): nat
  {
    if xs == [] then 0 else RowTotal(order, xs[0], ids) + GridTotal(order, xs[1..], ids)
  }

  lemma {:induction false} RowTotalFactors(order: seq<Line>, a: string, ids: seq<string>)
    requires |order| >= 2
    ensures RowTotal(order, a, ids) == Mult(order, a) * Occurrences(ids, Skus(order))
  {
    if ids != [] {
      RowTotalFactors(order, a, ids[1..]);
      ContributionProduct(order, a, ids[0]);
      var m, r := Mult(order, a), Occurrences(ids[1..], Skus(order));
      Distribute(Mult(order, ids[0]), r, m);
    }
  }

  lemma {:induction false} GridTotalFactors(order: seq<Line>, xs: seq<string>, ids: seq<string>)
    requires |order| >= 2
    ensures GridTotal(order, xs, ids) == Occurrences(xs, Skus(order)) * Occurrences(ids, Skus(order))
  {
    if xs != [] {
      RowTotalFactors(order, xs[0], ids);
      GridTotalFactors(order, xs[1..], ids);
      var m, r, t := Mult(order, xs[0]), Occurrences(xs[1..], Skus(order)), Occurrences(ids, Skus(order));
      Distribute(m, r, t);
    }
  }

  /**
   * An order of m >= 2 lines adds m * m to the matrix in total: summed over
   * all cells [a][b] with a and b ranging over any repetition-free list of
   * SKUs that covers the order's SKUs.
   */
  lemma OrderAddsSquareOfLength(order: seq<Line>, ids: seq<string>)
    requires |order| >= 2
    requires Distinct(ids)
    requires forall k :: 0 <= k < |order| ==> order[k].sku in ids
    ensures GridTotal(order, ids, ids) == |order| * |order|
  {
    OccurrencesCountLines(ids, Skus(order));
    GridTotalFactors(order, ids, ids);
  }

  /**
   * A worked log: order O1 holds S1 and S2, order O2 holds S1 alone. The
   * pair (S1, S2) is counted once, each SKU of O1 once with itself, and the
   * single-line order O2 adds nothing.
   */
  lemma WorkedExample()
    ensures var lines := [Line("S1", "O1"), Line("S2", "O1"), Line("S1", "O2")];
      && CoOccurrence(lines, "S1", "S2") == 1
      && CoOccurrence(lines, "S2", "S1") == 1
      && CoOccurrence(lines, "S1", "S1") == 1
      && CoOccurrence(lines, "S2", "S2") == 1
  {
    var lines := [Line("S1", "O1"), Line("S2", "O1"), Line("S1", "O2")];
    var o1, o2 := lines[0..2], lines[2..3];
    var orders: seq<seq<Line>> := [o1, o2];
    assert Orders(lines) == orders by {
      assert RunLength(lines, 2) == 1;
      assert RunLength(lines, 0) == 2;
      BlocksUnfold(lines, 0);
      BlocksUnfold(lines, 2);
    }
    assert Skus(o1) == ["S1"] + ["S2"];
    assert Mult(o1, "S1") == 1 && Mult(o1, "S2") == 1;
    ContributionProduct(o1, "S1", "S2");
    ContributionProduct(o1, "S2", "S1");
    ContributionProduct(o1, "S1", "S1");
    ContributionProduct(o1, "S2", "S2");
    assert orders[1..] == [o2] && orders[1..][1..] == [];
  }
}
