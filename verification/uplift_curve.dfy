/**
 * The binned uplift curve: the ranked population is cut into `size`
 * contiguous bins; per bin the treated and control rows and their conversions
 * are counted, and running sums over the bins give cumulative conversion
 * rates, the covered population fraction and the incremental gain.
 *
 * The real-valued columns (rates, uplift, population fraction, gain) are
 * derived from the integer columns of the same row, as member functions.
 */
module UpliftCurve {
  import opened Wrappers
  import opened Labels
  import opened Binning

  /** Treated and control row counts with the summed outcomes of each group. */
  datatype Counts = Counts(treatedN: nat, controlN: nat, treatedConverted: int, controlConverted: int) {
    function Plus(o: Counts): Counts {
      Counts(treatedN + o.treatedN, controlN + o.controlN,
             treatedConverted + o.treatedConverted, controlConverted + o.controlConverted)
    }
  }

  const NoCounts := Counts(0, 0, 0, 0)

  /** A row reduced to what the counts need: its group and its outcome. */
  datatype Entry = Entry(group: Group, outcome: int)

  /** Classifies every row (the source's is_treated / is_control masks). */
  function Classified(rows: seq<Row>): (es: seq<Entry>)
    ensures |es| == |rows|
    ensures forall i :: 0 <= i < |es| ==>
      es[i] == Entry(Classify(rows[i].treatment), rows[i].outcome)
  {
    seq(|rows|, i requires 0 <= i < |rows| => Entry(Classify(rows[i].treatment), rows[i].outcome))
  }

  /** The contribution of one row: it adds to at most one of the two groups. */
  function EntryCounts(e: Entry): Counts {
    match e.group
    case Treated => Counts(1, 0, e.outcome, 0)
    case Control => Counts(0, 1, 0, e.outcome)
    case Unclassified => NoCounts
  }

  /** Group counts and conversion sums over the rows [lo, hi). */
  function Tally(es: seq<Entry>, lo: nat, hi: nat): Counts
    requires lo <= hi <= |es|
    decreases hi - lo
  {
    if lo == hi then NoCounts else Tally(es, lo, hi - 1).Plus(EntryCounts(es[hi - 1]))
  }

  /**
   * A conversion rate: the mean outcome of a group, or exactly 0.0 when the
   * group is empty (never undefined).
   */
  function Rate(converted: int, count: nat): (r: real)
    ensures count == 0 ==> r == 0.0
    ensures count > 0 ==> r * count as real == converted as real
  {
    if count > 0 then converted as real / count as real else 0.0
  }

  /** One bin of the curve: its index, row range, size and group counts. */
  datatype BinStats = BinStats(bin: nat, start: nat, end: nat, binN: nat, counts: Counts) {
    function TreatedRate(): real { Rate(counts.treatedConverted, counts.treatedN) }
    function ControlRate(): real { Rate(counts.controlConverted, counts.controlN) }
    function Uplift(): real { TreatedRate() - ControlRate() }
  }

  /**
   * One output row: the bin, the running sums of its group counts and of the
   * bin sizes (cumBinN), and the population size the fraction divides by.
   */
  datatype CurveRow = CurveRow(stats: BinStats, cum: Counts, cumBinN: nat, populationN: nat) {
    function CumTreatedRate(): real { Rate(cum.treatedConverted, cum.treatedN) }
    function CumControlRate(): real { Rate(cum.controlConverted, cum.controlN) }
    function CumPopulationFrac(): real
      requires populationN > 0
    {
      cumBinN as real / populationN as real
    }
    function IncGains(): real
      requires populationN > 0
    {
      (CumTreatedRate() - CumControlRate()) * CumPopulationFrac()
    }
  }

  datatype CurveError =
    | NoBins            // size <= 0: no bin is produced, there is nothing to order by bin
    | EmptyPopulation   // n == 0: the population fraction would divide by zero

  lemma BinWithinRows(n: nat, size: nat, b: nat)
    requires size > 0 && 1 <= b <= size
    ensures BinStart(n, size, b) <= BinEnd(n, size, b) <= n
  {
    BoundaryMonotone(n, size, b - 1, b);
  }

  /** Reference definition of bin b (1-based): its row range and counts. */
  function BinAt(es: seq<Entry>, size: nat, b: nat): BinStats
    requires size > 0 && 1 <= b <= size
  {
    var n := |es|;
    BinWithinRows(n, size, b);
    var start, end := BinStart(n, size, b), BinEnd(n, size, b);
    BinStats(b, start, end, end - start, Tally(es, start, end))
  }

  /**
   * Reference definition of curve row b: the cumulative columns are taken over
   * the whole prefix of rows up to the end of bin b, not as running sums.
   */
  function CurveRowAt(es: seq<Entry>, size: nat, b: nat): CurveRow
    requires size > 0 && 1 <= b <= size
  {
    var end := BinEnd(|es|, size, b);
    CurveRow(BinAt(es, size, b), Tally(es, 0, end), end, |es|)
  }

  /** Counting is additive over adjacent row ranges. */
  lemma {:induction false} TallySplit(es: seq<Entry>, lo: nat, mid: nat, hi: nat)
    requires lo <= mid <= hi <= |es|
    ensures Tally(es, lo, hi) == Tally(es, lo, mid).Plus(Tally(es, mid, hi))
    decreases hi - mid
  {
    if mid < hi {
      TallySplit(es, lo, mid, hi - 1);
    }
  }

  /** The prefix up to the end of bin b is the prefix up to its start followed by the bin. */
  lemma PrefixSplit(es: seq<Entry>, size: nat, b: nat)
    requires size > 0 && 1 <= b <= size
    ensures Tally(es, 0, BinEnd(|es|, size, b)) ==
            Tally(es, 0, BinStart(|es|, size, b)).Plus(BinAt(es, size, b).counts)
  {
    BinWithinRows(|es|, size, b);
    TallySplit(es, 0, BinStart(|es|, size, b), BinEnd(|es|, size, b));
  }

  /**
   * The cumulative counts are running sums over the bins in ascending order:
   * bin 1 starts the sums and bin b adds its own counts to those of bin b - 1.
   */
  lemma CumulativeIsRunningSum(es: seq<Entry>, size: nat, b: nat)
    requires size > 0 && 1 <= b <= size
    ensures b == 1 ==> CurveRowAt(es, size, b).cum == BinAt(es, size, b).counts
    ensures b > 1 ==> CurveRowAt(es, size, b).cum ==
                      CurveRowAt(es, size, b - 1).cum.Plus(BinAt(es, size, b).counts)
  {
    var n := |es|;
    PrefixSplit(es, size, b);
    var counts := BinAt(es, size, b).counts;
    if b == 1 {
      BoundaryRange(n, size);
      assert NoCounts.Plus(counts) == counts;
    } else {
      assert BinStart(n, size, b) == BinEnd(n, size, b - 1);
    }
  }

  /** Counts over a prefix grow with the prefix; conversions too when outcomes are non-negative. */
  lemma {:induction false} PrefixTallyMonotone(es: seq<Entry>, i: nat, j: nat)
    requires i <= j <= |es|
    ensures Tally(es, 0, i).treatedN <= Tally(es, 0, j).treatedN
    ensures Tally(es, 0, i).controlN <= Tally(es, 0, j).controlN
    ensures (forall k :: 0 <= k < |es| ==> es[k].outcome >= 0) ==>
      Tally(es, 0, i).treatedConverted <= Tally(es, 0, j).treatedConverted &&
      Tally(es, 0, i).controlConverted <= Tally(es, 0, j).controlConverted
    decreases j - i
  {
    if i < j {
      PrefixTallyMonotone(es, i, j - 1);
    }
  }

  /**
   * The cumulative counts never decrease along the curve; the cumulative
   * conversions do not either when outcomes are non-negative.
   */
  lemma CumulativeMonotone(es: seq<Entry>, size: nat, b: nat, b': nat)
    requires size > 0 && 1 <= b <= b' <= size
    ensures CurveRowAt(es, size, b).cum.treatedN <= CurveRowAt(es, size, b').cum.treatedN
    ensures CurveRowAt(es, size, b).cum.controlN <= CurveRowAt(es, size, b').cum.controlN
    ensures (forall k :: 0 <= k < |es| ==> es[k].outcome >= 0) ==>
      CurveRowAt(es, size, b).cum.treatedConverted <= CurveRowAt(es, size, b').cum.treatedConverted &&
      CurveRowAt(es, size, b).cum.controlConverted <= CurveRowAt(es, size, b').cum.controlConverted
  {
    BoundaryMonotone(|es|, size, b, b');
    PrefixTallyMonotone(es, BinEnd(|es|, size, b), BinEnd(|es|, size, b'));
  }

  /** The last bin's cumulative counts are the whole population's, over all n rows. */
  lemma LastBinTotals(es: seq<Entry>, size: nat)
    requires size > 0
    ensures CurveRowAt(es, size, size).cum == Tally(es, 0, |es|)
    ensures CurveRowAt(es, size, size).cumBinN == |es|
  {
    BoundaryRange(|es|, size);
  }

  /** A positive quantity over itself is exactly 1. */
  lemma DivSelf(x: real)
    requires x > 0.0
    ensures x / x == 1.0
  {
  }

  /** The last bin covers the whole population: its population fraction is exactly 1. */
  lemma LastBinFraction(es: seq<Entry>, size: nat)
    requires size > 0 && |es| > 0
    ensures CurveRowAt(es, size, size).CumPopulationFrac() == 1.0
  {
    LastBinTotals(es, size);
    DivSelf(|es| as real);
  }

  /**
   * The incremental gain of the last bin is the overall treated rate minus the
   * overall control rate.
   */
  lemma LastBinGain(es: seq<Entry>, size: nat)
    requires size > 0 && |es| > 0
    ensures CurveRowAt(es, size, size).CumPopulationFrac() == 1.0
    ensures CurveRowAt(es, size, size).IncGains() ==
      Rate(Tally(es, 0, |es|).treatedConverted, Tally(es, 0, |es|).treatedN) -
      Rate(Tally(es, 0, |es|).controlConverted, Tally(es, 0, |es|).controlN)
  {
    var r := CurveRowAt(es, size, size);
    LastBinTotals(es, size);
    LastBinFraction(es, size);
    var gap := r.CumTreatedRate() - r.CumControlRate();
    assert gap * 1.0 == gap;
  }

  /**
   * Bin rates: the converted count over the group count, or 0.0 for an empty
   * group; the uplift is their difference.
   */
  lemma BinRates(es: seq<Entry>, size: nat, b: nat)
    requires size > 0 && 1 <= b <= size
    ensures var s := BinAt(es, size, b);
      (s.counts.treatedN == 0 ==> s.TreatedRate() == 0.0) &&
      (s.counts.treatedN > 0 ==> s.TreatedRate() * s.counts.treatedN as real == s.counts.treatedConverted as real) &&
      (s.counts.controlN == 0 ==> s.ControlRate() == 0.0) &&
      (s.counts.controlN > 0 ==> s.ControlRate() * s.counts.controlN as real == s.counts.controlConverted as real) &&
      s.Uplift() == s.TreatedRate() - s.ControlRate()
  {
  }

  /**
   * Cumulative rates: cumulative conversions over cumulative count, and 0.0
   * (never undefined) while a group has had no rows yet, even mid-curve; the
   * population fraction at bin b is the end of bin b over n.
   */
  lemma CumulativeRates(es: seq<Entry>, size: nat, b: nat)
    requires size > 0 && |es| > 0 && 1 <= b <= size
    ensures var r := CurveRowAt(es, size, b);
      (r.cum.treatedN == 0 ==> r.CumTreatedRate() == 0.0) &&
      (r.cum.treatedN > 0 ==> r.CumTreatedRate() * r.cum.treatedN as real == r.cum.treatedConverted as real) &&
      (r.cum.controlN == 0 ==> r.CumControlRate() == 0.0) &&
      (r.cum.controlN > 0 ==> r.CumControlRate() * r.cum.controlN as real == r.cum.controlConverted as real) &&
      r.CumPopulationFrac() * |es| as real == BinEnd(|es|, size, b) as real
  {
  }

  /** A rate of at most as many conversions as rows lies in [0, 1]. */
  lemma RateInUnitInterval(converted: int, count: nat)
    requires 0 <= converted <= count
    ensures 0.0 <= Rate(converted, count) <= 1.0
  {
    if count > 0 {
      var c, k := converted as real, count as real;
      assert c / k <= 1.0 by {
        assert c <= k;
        assert k / k == 1.0;
      }
    }
  }

  /** With 0/1 outcomes no group converts more rows than it has, so every rate lies in [0, 1]. */
  lemma {:induction false} BinaryOutcomesBounded(es: seq<Entry>, lo: nat, hi: nat)
    requires lo <= hi <= |es|
    requires forall k :: 0 <= k < |es| ==> es[k].outcome == 0 || es[k].outcome == 1
    ensures 0 <= Tally(es, lo, hi).treatedConverted <= Tally(es, lo, hi).treatedN
    ensures 0 <= Tally(es, lo, hi).controlConverted <= Tally(es, lo, hi).controlN
    ensures 0.0 <= Rate(Tally(es, lo, hi).treatedConverted, Tally(es, lo, hi).treatedN) <= 1.0
    ensures 0.0 <= Rate(Tally(es, lo, hi).controlConverted, Tally(es, lo, hi).controlN) <= 1.0
    decreases hi - lo
  {
    if lo < hi {
      BinaryOutcomesBounded(es, lo, hi - 1);
    }
    var t := Tally(es, lo, hi);
    RateInUnitInterval(t.treatedConverted, t.treatedN);
    RateInUnitInterval(t.controlConverted, t.controlN);
  }

  /**
   * The per-bin pass: the statistics of bins 1..size in ascending order, and
   * the total number of rows they hold.
   */
  method BinTable(es: seq<Entry>, size: nat) returns (results: seq<BinStats>, total: nat)
    requires size > 0
    ensures |results| == size
    ensures forall b :: 1 <= b <= size ==> results[b - 1] == BinAt(es, size, b)
    ensures total == |es|
  {
    var n := |es|;
    results, total := [], 0;
    for b := 1 to size + 1
      invariant |results| == b - 1
      invariant forall c :: 1 <= c < b ==> results[c - 1] == BinAt(es, size, c)
      invariant total == Boundary(n, size, b - 1)
    {
      var start := Boundary(n, size, b - 1);
      var end := Boundary(n, size, b);
      BinWithinRows(n, size, b);
      results := results + [BinStats(b, start, end, end - start, Tally(es, start, end))];
      total := total + (end - start);
    }
    BoundaryRange(n, size);
  }

  /** Sum of the group counts of the first k bins of a bin table. */
  function CountsBefore(results: seq<BinStats>, k: nat): Counts
    requires k <= |results|
    decreases k
  {
    if k == 0 then NoCounts else CountsBefore(results, k - 1).Plus(results[k - 1].counts)
  }

  /** Sum of the sizes of the first k bins of a bin table. */
  function RowsBefore(results: seq<BinStats>, k: nat): nat
    requires k <= |results|
    decreases k
  {
    if k == 0 then 0 else RowsBefore(results, k - 1) + results[k - 1].binN
  }

  /**
   * Running sums over a table of reference bins are prefix tallies: the first k
   * bins hold exactly the rows before boundary k, and their counts are the
   * counts of those rows.
   */
  lemma {:induction false} RunningSumsArePrefixTallies(es: seq<Entry>, size: nat, results: seq<BinStats>, k: nat)
    requires size > 0 && |results| == size && k <= size
    requires forall b :: 1 <= b <= size ==> results[b - 1] == BinAt(es, size, b)
    ensures RowsBefore(results, k) == Boundary(|es|, size, k)
    ensures CountsBefore(results, k) == Tally(es, 0, Boundary(|es|, size, k))
    decreases k
  {
    if k == 0 {
      BoundaryRange(|es|, size);
    } else {
      RunningSumsArePrefixTallies(es, size, results, k - 1);
      RunningSumsStep(es, size, results, k);
    }
  }

  /** Adding reference bin k to the sums over the first k - 1 bins gives the prefix tally up to boundary k. */
  lemma RunningSumsStep(es: seq<Entry>, size: nat, results: seq<BinStats>, k: nat)
    requires size > 0 && |results| == size && 1 <= k <= size
    requires results[k - 1] == BinAt(es, size, k)
    requires RowsBefore(results, k - 1) == Boundary(|es|, size, k - 1)
    requires CountsBefore(results, k - 1) == Tally(es, 0, Boundary(|es|, size, k - 1))
    ensures RowsBefore(results, k) == Boundary(|es|, size, k)
    ensures CountsBefore(results, k) == Tally(es, 0, Boundary(|es|, size, k))
  {
    var n := |es|;
    var lo, hi := Boundary(n, size, k - 1), Boundary(n, size, k);
    BinWithinRows(n, size, k);
    assert results[k - 1].binN == hi - lo && results[k - 1].counts == Tally(es, lo, hi);
    SumsStep(es, results, k, lo, hi);
  }

  /** Running sums extended by a table entry that holds the rows [lo, hi). */
  lemma SumsStep(es: seq<Entry>, results: seq<BinStats>, k: nat, lo: nat, hi: nat)
    requires 1 <= k <= |results| && lo <= hi <= |es|
    requires results[k - 1].binN == hi - lo && results[k - 1].counts == Tally(es, lo, hi)
    requires RowsBefore(results, k - 1) == lo && CountsBefore(results, k - 1) == Tally(es, 0, lo)
    ensures RowsBefore(results, k) == hi && CountsBefore(results, k) == Tally(es, 0, hi)
  {
    TallySplit(es, 0, lo, hi);
  }

  /** Row i + 1 of the curve built from running sums over a reference bin table is the reference row. */
  lemma RunningRowIsReference(es: seq<Entry>, size: nat, results: seq<BinStats>, i: nat)
    requires size > 0 && |results| == size && i < size
    requires forall b :: 1 <= b <= size ==> results[b - 1] == BinAt(es, size, b)
    ensures CurveRow(results[i], CountsBefore(results, i + 1), RowsBefore(results, i + 1), |es|) ==
            CurveRowAt(es, size, i + 1)
  {
    RunningSumsArePrefixTallies(es, size, results, i + 1);
    assert results[i] == BinAt(es, size, i + 1);
    RowFromSums(es, size, i + 1, results[i], CountsBefore(results, i + 1), RowsBefore(results, i + 1));
  }

  /** A bin with the counts and the size of the prefix up to its end is the reference row. */
  lemma RowFromSums(es: seq<Entry>, size: nat, b: nat, stats: BinStats, cum: Counts, rows: nat)
    requires size > 0 && 1 <= b <= size
    requires stats == BinAt(es, size, b) && rows == Boundary(|es|, size, b) && cum == Tally(es, 0, rows)
    ensures CurveRow(stats, cum, rows, |es|) == CurveRowAt(es, size, b)
  {
  }

  /**
   * The cumulative pass: running sums of the bin counts and of the bin sizes,
   * bin by bin in ascending order; row i carries the sums over bins 0..i.
   */
  method Accumulate(results: seq<BinStats>, total: nat) returns (curve: seq<CurveRow>)
    ensures |curve| == |results|
    ensures forall i {:trigger curve[i]} :: 0 <= i < |results| ==>
      curve[i] == CurveRow(results[i], CountsBefore(results, i + 1), RowsBefore(results, i + 1), total)
  {
    curve := [];
    var cum := NoCounts;
    var covered := 0;
    for i := 0 to |results|
      invariant |curve| == i
      invariant cum == CountsBefore(results, i) && covered == RowsBefore(results, i)
      invariant forall j {:trigger curve[j]} :: 0 <= j < i ==>
        curve[j] == CurveRow(results[j], CountsBefore(results, j + 1), RowsBefore(results, j + 1), total)
    {
      cum := cum.Plus(results[i].counts);
      covered := covered + results[i].binN;
      curve := curve + [CurveRow(results[i], cum, covered, total)];
    }
  }

  /**
   * Builds the curve: one row per bin 1..size in ascending order, each equal to
   * the reference definition CurveRowAt over the classified rows. Fails on a
   * non-positive bin count and on an empty population.
   */
  method UpliftByDecileBin(rows: seq<Row>, size: int) returns (r: Result<seq<CurveRow>, CurveError>)
    ensures size <= 0 ==> r == Failure(NoBins)
    ensures size > 0 && |rows| == 0 ==> r == Failure(EmptyPopulation)
    ensures size > 0 && |rows| > 0 ==>
      r.Success? && |r.value| == size &&
      forall i :: 0 <= i < size ==> r.value[i] == CurveRowAt(Classified(rows), size, i + 1)
  {
    if size <= 0 {
      return Failure(NoBins);
    }
    var es := Classified(rows);
    var results, total := BinTable(es, size);
    if total == 0 {
      return Failure(EmptyPopulation);
    }
    var curve := Accumulate(results, total);
    forall i | 0 <= i < size
      ensures curve[i] == CurveRowAt(es, size, i + 1)
    {
      RunningRowIsReference(es, size, results, i);
    }
    return Success(curve);
  }
}
