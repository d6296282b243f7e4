/** Short-horizon candidates (`build_t0_t1_candidates`): keep the rows whose volume and range
    reach the day's medians, score them linearly, and return the best `top_n` by score. The two
    medians are given: how pandas interpolates a quantile is not modelled. */
module Candidates {
  import opened Tables
  import opened Sorting

  const RangeCalcCol: ColName := "Range_calc"
  const ScoreCol: ColName := "T0T1_Score"

  /** The columns the result shows, those present, in this order. */
  const ShowCols: seq<ColName> :=
    ["Symbol", "S. Description", "Last", "% Change", "Volume",
     RangeCalcCol, "buy_ratio", "behavior", "AI_Prob", ScoreCol]

  /** The day's range of a row: the `Range` column when the table has one; otherwise
      (High - Low) / Last * 100, missing when an input is missing or Last is 0. */
  function RangeOf(r: Row, hasRange: bool): Option<real> {
    if hasRange then NumAt(r, "Range")
    else
      var high, low, last := NumAt(r, "High"), NumAt(r, "Low"), NumAt(r, "Last");
      if high.Some? && low.Some? && last.Some? && last.value != 0.0
      then Some((high.value - low.value) / last.value * 100.0)
      else None
  }

  /** Volume with a missing value read as 0. */
  function VolumeOf(r: Row): real {
    NumAt(r, "Volume").GetOr(0.0)
  }

  /** The median screen: volume at least the volume median and a range at least the range
      median (a missing range, or a missing median, never passes). */
  predicate Screened(r: Row, hasRange: bool, volMedian: real, rangeMedian: Option<real>) {
    var rng := RangeOf(r, hasRange);
    VolumeOf(r) >= volMedian && rng.Some? && rangeMedian.Some? && rng.value >= rangeMedian.value
  }

  /** 100 * AI_Prob + 3 * range + 50 * (buy_ratio - 0.5), a missing AI_Prob or buy ratio read
      as 0.5 and a missing range as 0. */
  function ScoreOf(r: Row, hasRange: bool): real {
    100.0 * NumAt(r, "AI_Prob").GetOr(0.5)
    + 3.0 * RangeOf(r, hasRange).GetOr(0.0)
    + 50.0 * (NumAt(r, "buy_ratio").GetOr(0.5) - 0.5)
  }

  /** A row as a candidate: its range and score written into their own columns. */
  function CandidateRow(r: Row, hasRange: bool): Row {
    var rng := RangeOf(r, hasRange);
    r[RangeCalcCol := if rng.Some? then Num(rng.value) else Missing][ScoreCol := Num(ScoreOf(r, hasRange))]
  }

  function ScoreKey(r: Row): Option<real> {
    NumAt(r, ScoreCol)
  }

  /** `x` is the candidate row of some row that passes the screen. */
  predicate FromScreenedRow(rows: seq<Row>, x: Row, hasRange: bool, volMedian: real, rangeMedian: Option<real>) {
    exists i | 0 <= i < |rows| :: Screened(rows[i], hasRange, volMedian, rangeMedian) && x == CandidateRow(rows[i], hasRange)
  }

  /** The candidate rows of the screened rows, in table order (`df[mask]`). */
  function Screen(rows: seq<Row>, hasRange: bool, volMedian: real, rangeMedian: Option<real>): (c: seq<Row>)
    ensures |c| <= |rows|
    ensures forall x | x in c :: FromScreenedRow(rows, x, hasRange, volMedian, rangeMedian)
    ensures forall i | 0 <= i < |rows| && Screened(rows[i], hasRange, volMedian, rangeMedian) :: CandidateRow(rows[i], hasRange) in c
  {
    if rows == [] then []
    else
      var rest := Screen(rows[1..], hasRange, volMedian, rangeMedian);
      FromScreenedTail(rows, rest, hasRange, volMedian, rangeMedian);
      if Screened(rows[0], hasRange, volMedian, rangeMedian) then [CandidateRow(rows[0], hasRange)] + rest else rest
  }

  /** What the rows after the first yield, the whole table yields. */
  lemma FromScreenedTail(rows: seq<Row>, rest: seq<Row>, hasRange: bool, volMedian: real, rangeMedian: Option<real>)
    requires rows != []
    requires forall x | x in rest :: FromScreenedRow(rows[1..], x, hasRange, volMedian, rangeMedian)
    ensures forall x | x in rest :: FromScreenedRow(rows, x, hasRange, volMedian, rangeMedian)
    ensures forall i | 1 <= i < |rows| :: rows[i] == rows[1..][i - 1]
  {
    forall x | x in rest ensures FromScreenedRow(rows, x, hasRange, volMedian, rangeMedian) {
      var i :| 0 <= i < |rows[1..]| && Screened(rows[1..][i], hasRange, volMedian, rangeMedian) && x == CandidateRow(rows[1..][i], hasRange);
      assert rows[1..][i] == rows[i + 1];
    }
  }

  /** The screened candidates sorted by score, highest first, cut to the first `topN`. */
  function Ranked(rows: seq<Row>, hasRange: bool, volMedian: real, rangeMedian: Option<real>, topN: int): seq<Row> {
    Head(SortOn(Screen(rows, hasRange, volMedian, rangeMedian), ScoreKey, true), topN)
  }

  /** The whole operation. Reading an absent column fails where the source calls a method on
      it: `Last` (only when the range is computed), then `Volume`, `AI_Prob` and `buy_ratio`. */
  function T0T1Candidates(f: Frame, topN: int, volMedian: real, rangeMedian: Option<real>): (res: Result<Frame>)
    requires WellFormed(f)
    ensures res.Err? <==> ("Range" !in f.cols && "Last" !in f.cols) || "Volume" !in f.cols
                          || "AI_Prob" !in f.cols || "buy_ratio" !in f.cols
    ensures res.Ok? ==> forall c | c in res.value.cols :: c in ShowCols
  {
    if "Range" !in f.cols && "Last" !in f.cols then Err(MissingColumn("Last"))
    else if "Volume" !in f.cols then Err(MissingColumn("Volume"))
    else if "AI_Prob" !in f.cols then Err(MissingColumn("AI_Prob"))
    else if "buy_ratio" !in f.cols then Err(MissingColumn("buy_ratio"))
    else
      var cand := Ranked(f.rows, "Range" in f.cols, volMedian, rangeMedian, topN);
      var cols := Present(ShowCols, f.cols + [RangeCalcCol, ScoreCol]);
      Ok(Frame(cols, seq(|cand|, k requires 0 <= k < |cand| => Project(cand[k], cols))))
  }

  /** The result rows are the ranked candidates, each restricted to the shown columns; the
      score column is always shown. */
  lemma ResultRows(f: Frame, topN: int, volMedian: real, rangeMedian: Option<real>)
    requires WellFormed(f) && T0T1Candidates(f, topN, volMedian, rangeMedian).Ok?
    ensures var g := T0T1Candidates(f, topN, volMedian, rangeMedian).value;
            var cand := Ranked(f.rows, "Range" in f.cols, volMedian, rangeMedian, topN);
            && ScoreCol in g.cols && |g.rows| == |cand|
            && forall k | 0 <= k < |cand| :: g.rows[k] == Project(cand[k], g.cols)
  {
  }

  /** At most `topN` candidates, and they are ordered by score, highest first. */
  lemma RankedBoundedAndSorted(rows: seq<Row>, hasRange: bool, volMedian: real, rangeMedian: Option<real>, topN: int)
    ensures var cand := Ranked(rows, hasRange, volMedian, rangeMedian, topN);
            && (topN >= 0 ==> |cand| <= topN)
            && (forall x | x in cand :: ScoreKey(x).Some?)
            && forall k, l | 0 <= k < l < |cand| :: ScoreKey(cand[k]).value >= ScoreKey(cand[l]).value
  {
    var screened := Screen(rows, hasRange, volMedian, rangeMedian);
    ScreenScored(rows, hasRange, volMedian, rangeMedian);
    SortedPrefixOrdered(screened, topN);
  }

  /** Every screened candidate carries its score. */
  lemma ScreenScored(rows: seq<Row>, hasRange: bool, volMedian: real, rangeMedian: Option<real>)
    ensures forall x | x in Screen(rows, hasRange, volMedian, rangeMedian) :: ScoreKey(x).Some?
  {
    var screened := Screen(rows, hasRange, volMedian, rangeMedian);
    forall x | x in screened ensures ScoreKey(x).Some? {
      assert FromScreenedRow(rows, x, hasRange, volMedian, rangeMedian);
      var i :| 0 <= i < |rows| && Screened(rows[i], hasRange, volMedian, rangeMedian) && x == CandidateRow(rows[i], hasRange);
    }
  }

  /** The first n of a list of scored rows sorted by score are in non-increasing score order. */
  lemma SortedPrefixOrdered(xs: seq<Row>, n: int)
    requires forall x | x in xs :: ScoreKey(x).Some?
    ensures var cut := Head(SortOn(xs, ScoreKey, true), n);
            && (forall x | x in cut :: ScoreKey(x).Some?)
            && forall k, l | 0 <= k < l < |cut| :: ScoreKey(cut[k]).value >= ScoreKey(cut[l]).value
  {
    var sorted := SortOn(xs, ScoreKey, true);
    var cut := Head(sorted, n);
    AllScored(xs, sorted);
    forall k, l | 0 <= k < l < |cut| ensures ScoreKey(cut[k]).value >= ScoreKey(cut[l]).value {
      assert cut[k] == sorted[k] && cut[l] == sorted[l];
      assert sorted[k] in sorted && sorted[l] in sorted;
      assert Precedes(ScoreKey(sorted[k]), ScoreKey(sorted[l]), true);
    }
  }

  /** Every candidate row carries a score. */
  lemma AllScored(screened: seq<Row>, sorted: seq<Row>)
    requires forall x | x in screened :: ScoreKey(x).Some?
    requires multiset(sorted) == multiset(screened)
    ensures forall x | x in sorted :: ScoreKey(x).Some?
  {
    PermutationMembers(sorted, screened);
  }

  /** Each candidate is a screened input row with its range and score: volume at least the
      volume median, a present range at least the range median, and the linear score. */
  lemma RankedFromScreened(rows: seq<Row>, hasRange: bool, volMedian: real, rangeMedian: Option<real>, topN: int)
    ensures forall x | x in Ranked(rows, hasRange, volMedian, rangeMedian, topN) ::
              exists i | 0 <= i < |rows| ::
                Screened(rows[i], hasRange, volMedian, rangeMedian) && x == CandidateRow(rows[i], hasRange)
  {
    var screened := Screen(rows, hasRange, volMedian, rangeMedian);
    var sorted := SortOn(screened, ScoreKey, true);
    forall x | x in Ranked(rows, hasRange, volMedian, rangeMedian, topN)
      ensures exists i | 0 <= i < |rows| :: Screened(rows[i], hasRange, volMedian, rangeMedian) && x == CandidateRow(rows[i], hasRange)
    {
      assert x in sorted;
      assert x in multiset(screened);
      assert FromScreenedRow(rows, x, hasRange, volMedian, rangeMedian);
    }
  }

  /** The cut keeps the best: a screened row left out of the result scores no higher than any
      row in it. */
  lemma TopDominates(rows: seq<Row>, hasRange: bool, volMedian: real, rangeMedian: Option<real>, topN: int, i: nat)
    requires i < |rows| && Screened(rows[i], hasRange, volMedian, rangeMedian)
    ensures var cand := Ranked(rows, hasRange, volMedian, rangeMedian, topN);
            || CandidateRow(rows[i], hasRange) in cand
            || forall x | x in cand :: ScoreKey(x).Some? && ScoreKey(x).value >= ScoreOf(rows[i], hasRange)
  {
    var screened := Screen(rows, hasRange, volMedian, rangeMedian);
    var row := CandidateRow(rows[i], hasRange);
    SortedPrefixDominates(screened, row, topN);
  }

  /** In the first n of a list sorted by score, highest first, every row scores at least as
      high as any scored row of the list that did not make the cut. */
  lemma SortedPrefixDominates(xs: seq<Row>, row: Row, n: int)
    requires row in xs && ScoreKey(row).Some?
    ensures var cut := Head(SortOn(xs, ScoreKey, true), n);
            row in cut || forall x | x in cut :: ScoreKey(x).Some? && ScoreKey(x).value >= ScoreKey(row).value
  {
    var sorted := SortOn(xs, ScoreKey, true);
    var cut := Head(sorted, n);
    assert row in multiset(sorted) by {
      assert row in multiset(xs);
    }
    var p :| 0 <= p < |sorted| && sorted[p] == row;
    if row !in cut {
      assert cut == sorted[..|cut|];
      forall x | x in cut ensures ScoreKey(x).Some? && ScoreKey(x).value >= ScoreKey(row).value {
        var q :| 0 <= q < |cut| && cut[q] == x;
        assert q < p;
        assert Precedes(ScoreKey(sorted[q]), ScoreKey(sorted[p]), true);
      }
    }
  }

  /** Without a `Range` column, a row whose last price is 0 has no range and is never a
      candidate. */
  lemma ZeroLastExcluded(r: Row, volMedian: real, rangeMedian: Option<real>)
    requires NumAt(r, "Last") == Some(0.0)
    ensures RangeOf(r, false).None? && !Screened(r, false, volMedian, rangeMedian)
  {
  }
}
