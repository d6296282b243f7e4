/** The rule-based success score (`apply_ai_score`): 0.5 plus a price-change term, a buy-ratio
    term and a behaviour term, clipped to [0.05, 0.95]; a table that already has a score is
    returned as it is. */
module Score {
  import opened Tables

  const ProbCol: ColName := "AI_Prob"
  const ChangeCol: ColName := "% Change"
  const RatioCol: ColName := "buy_ratio"
  const BehaviorCol: ColName := "behavior"

  /** The input column of each term, in the order the terms are added. */
  const TermCols: seq<ColName> := [ChangeCol, RatioCol, BehaviorCol]

  const Floor: real := 0.05
  const Ceiling: real := 0.95

  /** `Series.clip(lo, hi)` on one value. */
  function Clip(x: real, lo: real, hi: real): (r: real)
    requires lo <= hi
    ensures lo <= r <= hi
    ensures lo <= x <= hi ==> r == x
    ensures x < lo ==> r == lo
    ensures x > hi ==> r == hi
  {
    if x < lo then lo else if x > hi then hi else x
  }

  /** The k-th term of a row: +0.07 / -0.07 for a rising / falling price, 0.3 times the buy
      ratio's distance from 0.5, and +0.08 / -0.08 for Accumulation / Distribution. A missing
      or non-numeric input, or an absent column, contributes 0. */
  function Term(r: Row, k: nat): real
    requires k < 3
  {
    if k == 0 then
      var change := NumAt(r, ChangeCol).GetOr(0.0);
      if change > 0.0 then 0.07 else if change < 0.0 then -0.07 else 0.0
    else if k == 1 then
      var br := NumAt(r, RatioCol);
      if br.Some? then 0.3 * (br.value - 0.5) else 0.0
    else
      var b := At(r, BehaviorCol);
      if b == Text("Accumulation") then 0.08 else if b == Text("Distribution") then -0.08 else 0.0
  }

  /** The score before clipping, after the first k terms have been added to 0.5. */
  function Partial(r: Row, k: nat): real
    requires k <= 3
  {
    if k == 0 then 0.5 else Partial(r, k - 1) + Term(r, k - 1)
  }

  /** The three terms added up. */
  lemma PartialSum(r: Row)
    ensures Partial(r, 3) == 0.5 + Term(r, 0) + Term(r, 1) + Term(r, 2)
  {
    assert Partial(r, 1) == 0.5 + Term(r, 0);
    assert Partial(r, 2) == Partial(r, 1) + Term(r, 1);
  }

  /** A row's score. */
  function Score(r: Row): (p: real)
    ensures Floor <= p <= Ceiling
  {
    Clip(Partial(r, 3), Floor, Ceiling)
  }

  /** The scored table: an `AI_Prob` column is appended holding every row's score, unless the
      table already has one, in which case nothing changes. No other cell changes. */
  function Scored(f: Frame): (g: Frame)
    requires WellFormed(f)
    ensures WellFormed(g) && ProbCol in g.cols && |g.rows| == |f.rows|
    ensures ProbCol in f.cols ==> g == f
    ensures ProbCol !in f.cols ==>
              && g.cols == f.cols + [ProbCol]
              && forall i | 0 <= i < |g.rows| ::
                   && (forall c | c != ProbCol :: At(g.rows[i], c) == At(f.rows[i], c))
                   && g.rows[i][ProbCol] == Num(Score(f.rows[i]))
  {
    if ProbCol in f.cols then f
    else WithColumn(f, ProbCol, seq(|f.rows|, i requires 0 <= i < |f.rows| => Num(Score(f.rows[i]))))
  }

  /** Scoring twice is scoring once: the second call finds `AI_Prob` and returns the table. */
  lemma ScoredIdempotent(f: Frame)
    requires WellFormed(f)
    ensures Scored(Scored(f)) == Scored(f)
  {
  }

  /** Every score written lies in [0.05, 0.95]. */
  lemma ScoredBounds(f: Frame, i: nat)
    requires WellFormed(f) && ProbCol !in f.cols && i < |f.rows|
    ensures var p := Scored(f).rows[i][ProbCol];
            p.Num? && Floor <= p.x <= Ceiling
  {
  }

  /** A rising price, buy ratio 0.8 and Accumulation: 0.5 + 0.07 + 0.3 * 0.3 + 0.08 = 0.74. */
  lemma RisingAccumulationExample(r: Row)
    requires At(r, ChangeCol) == Num(2.0) && At(r, RatioCol) == Num(0.8)
    requires At(r, BehaviorCol) == Text("Accumulation")
    ensures Score(r) == 0.74
  {
    PartialSum(r);
    assert Term(r, 0) == 0.07 && Term(r, 1) == 0.09 && Term(r, 2) == 0.08;
  }

  /** Extreme buy ratios are clipped: the score saturates at 0.95 and at 0.05. */
  lemma ExtremesClipped(r: Row, s: Row)
    requires At(r, RatioCol) == Num(10.0) && At(s, RatioCol) == Num(-10.0)
    ensures Score(r) == Ceiling && Score(s) == Floor
  {
    PartialSum(r);
    PartialSum(s);
  }

  /** For a buy ratio in [0, 1], or none, the unclipped score already lies in [0.20, 0.80],
      so the clip leaves it unchanged. */
  lemma UnitRatioUnclipped(r: Row)
    requires NumAt(r, RatioCol).Some? ==> 0.0 <= NumAt(r, RatioCol).value <= 1.0
    ensures 0.20 <= Partial(r, 3) <= 0.80
    ensures Score(r) == Partial(r, 3)
  {
    PartialSum(r);
  }

  /** A row with no usable input scores exactly 0.5. */
  lemma NoEvidenceNeutral(r: Row)
    requires NumAt(r, ChangeCol).None? && NumAt(r, RatioCol).None?
    requires At(r, BehaviorCol) != Text("Accumulation") && At(r, BehaviorCol) != Text("Distribution")
    ensures Score(r) == 0.5
  {
    PartialSum(r);
  }

  /** Raising the buy ratio, all else equal, never lowers the score. */
  lemma ScoreMonotoneInRatio(r: Row, b1: real, b2: real)
    requires b1 <= b2
    ensures Score(r[RatioCol := Num(b1)]) <= Score(r[RatioCol := Num(b2)])
  {
    var r1, r2 := r[RatioCol := Num(b1)], r[RatioCol := Num(b2)];
    assert Term(r1, 0) == Term(r2, 0) by {
      assert At(r1, ChangeCol) == At(r2, ChangeCol);
    }
    assert Term(r1, 2) == Term(r2, 2) by {
      assert At(r1, BehaviorCol) == At(r2, BehaviorCol);
    }
    PartialSum(r1);
    PartialSum(r2);
  }

  /** Raising the price change, all else equal, never lowers the score. */
  lemma ScoreMonotoneInChange(r: Row, c1: real, c2: real)
    requires c1 <= c2
    ensures Score(r[ChangeCol := Num(c1)]) <= Score(r[ChangeCol := Num(c2)])
  {
    var r1, r2 := r[ChangeCol := Num(c1)], r[ChangeCol := Num(c2)];
    assert Term(r1, 1) == Term(r2, 1) by {
      assert At(r1, RatioCol) == At(r2, RatioCol);
    }
    assert Term(r1, 2) == Term(r2, 2) by {
      assert At(r1, BehaviorCol) == At(r2, BehaviorCol);
    }
    PartialSum(r1);
    PartialSum(r2);
  }

  /** Lines 410-433 as the source runs them: start every row at 0.5, add each term column that
      exists row by row, then clip. */
  method ApplyAiScore(f: Frame) returns (g: Frame)
    requires WellFormed(f)
    ensures g == Scored(f)
  {
    if ProbCol in f.cols {
      return f;
    }
    var n := |f.rows|;
    var prob := new real[n](_ => 0.5);
    for k := 0 to 3
      invariant forall j | 0 <= j < n :: prob[j] == Partial(f.rows[j], k)
    {
      if TermCols[k] in f.cols {
        AddTerm(prob, f.rows, k);
      } else {
        forall j | 0 <= j < n ensures Term(f.rows[j], k) == 0.0 {
          assert TermCols[k] !in f.rows[j];
        }
      }
    }
    for j := 0 to n
      invariant forall l | 0 <= l < j :: prob[l] == Score(f.rows[l])
      invariant forall l | j <= l < n :: prob[l] == Partial(f.rows[l], 3)
    {
      prob[j] := Clip(prob[j], Floor, Ceiling);
    }
    var probs := prob[..];
    g := WithColumn(f, ProbCol, seq(n, i requires 0 <= i < n => Num(probs[i])));
    assert g.rows == Scored(f).rows;
  }

  /** `df["AI_Prob"] += term`: one term added to every row's running score, in place. */
  method AddTerm(prob: array<real>, rows: seq<Row>, k: nat)
    requires k < 3 && prob.Length == |rows|
    modifies prob
    ensures forall j | 0 <= j < prob.Length :: prob[j] == old(prob[j]) + Term(rows[j], k)
  {
    for j := 0 to prob.Length
      invariant forall l | 0 <= l < j :: prob[l] == old(prob[l]) + Term(rows[l], k)
      invariant forall l | j <= l < prob.Length :: prob[l] == old(prob[l])
    {
      prob[j] := prob[j] + Term(rows[j], k);
    }
  }
}
