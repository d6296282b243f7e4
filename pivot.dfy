/** Classical pivot levels (`add_pivot_levels`): from High, Low and a reference close, fill the
    pivot, two resistance and two support columns of every row where all five are missing. */
module Pivot {
  import opened Tables

  const PivotCol: ColName := "Pivot Point"
  const R1Col: ColName := "Resistance 1 (R1)"
  const R2Col: ColName := "Resistance 2 (R2)"
  const S1Col: ColName := "Support 1 (S1)"
  const S2Col: ColName := "Support 2 (S2)"
  const PrevClosedCol: ColName := "Prev. Closed"

  /** The five level columns, in the order the source adds and writes them. */
  const LevelCols: seq<ColName> := [PivotCol, R1Col, R2Col, S1Col, S2Col]

  datatype Levels = Levels(pivot: real, r1: real, r2: real, s1: real, s2: real)

  /** P = (H + L + C) / 3, R1 = 2P - L, S1 = 2P - H, R2 = P + (H - L), S2 = P - (H - L). */
  function Classical(high: real, low: real, close: real): Levels {
    var p := (high + low + close) / 3.0;
    Levels(p, 2.0 * p - low, p + (high - low), 2.0 * p - high, p - (high - low))
  }

  /** The level written into the k-th column of `LevelCols`. */
  function LevelValue(lv: Levels, k: nat): real
    requires k < 5
  {
    [lv.pivot, lv.r1, lv.r2, lv.s1, lv.s2][k]
  }

  /** The close the levels are computed from: `Prev. Closed` whenever that column exists, even
      where its cell is missing; `Last` only when it does not. */
  function RefColumn(cols: seq<ColName>): ColName {
    if PrevClosedCol in cols then PrevClosedCol else "Last"
  }

  /** The row mask `need_calc`: High, Low and the reference close are numbers and all five
      level cells are missing (a level cell holding text counts as present). */
  predicate NeedCalc(r: Row, ref: ColName) {
    && NumAt(r, "High").Some? && NumAt(r, "Low").Some? && NumAt(r, ref).Some?
    && At(r, PivotCol) == Missing && At(r, R1Col) == Missing && At(r, R2Col) == Missing
    && At(r, S1Col) == Missing && At(r, S2Col) == Missing
  }

  function RowLevels(r: Row, ref: ColName): Levels
    requires NumAt(r, "High").Some? && NumAt(r, "Low").Some? && NumAt(r, ref).Some?
  {
    Classical(NumAt(r, "High").value, NumAt(r, "Low").value, NumAt(r, ref).value)
  }

  /** The row after the first k level columns have been written with `lv`. */
  function WriteFirst(r: Row, lv: Levels, k: nat): Row
    requires k <= 5
  {
    if k == 0 then r else WriteFirst(r, lv, k - 1)[LevelCols[k - 1] := Num(LevelValue(lv, k - 1))]
  }

  function PivotRow(r: Row, ref: ColName): Row {
    if NeedCalc(r, ref) then WriteFirst(r, RowLevels(r, ref), 5) else r
  }

  /** The whole operation. Reading a column that is absent fails as the source does: High, Low,
      then the reference close (`Last` when `Prev. Closed` is absent too). */
  function Pivoted(f: Frame): (res: Result<Frame>)
    requires WellFormed(f)
    ensures res.Ok? <==> "High" in f.cols && "Low" in f.cols && (PrevClosedCol in f.cols || "Last" in f.cols)
    ensures res.Ok? ==> var g := res.value;
              && WellFormed(g) && |g.rows| == |f.rows|
              && |g.cols| >= |f.cols| && g.cols[..|f.cols|] == f.cols
              && (forall c | c in LevelCols :: c in g.cols)
              && (forall c | c in g.cols[|f.cols|..] :: c in LevelCols)
  {
    if "High" !in f.cols then Err(MissingColumn("High"))
    else if "Low" !in f.cols then Err(MissingColumn("Low"))
    else if RefColumn(f.cols) !in f.cols then Err(MissingColumn("Last"))
    else
      var g := WithMissingColumns(f, LevelCols);
      var ref := RefColumn(f.cols);
      var rows := seq(|g.rows|, i requires 0 <= i < |g.rows| => PivotRow(g.rows[i], ref));
      assert forall i | 0 <= i < |rows| :: rows[i].Keys == g.rows[i].Keys by {
        forall i | 0 <= i < |rows| ensures rows[i].Keys == g.rows[i].Keys {
          WriteFirstKeys(g.rows[i], 5);
        }
      }
      Ok(Frame(g.cols, rows))
  }

  /** Writing levels into a row that already has the level columns adds no key. */
  lemma {:induction false} WriteFirstKeys(r: Row, k: nat)
    requires k <= 5 && forall c | c in LevelCols :: c in r
    ensures forall lv :: WriteFirst(r, lv, k).Keys == r.Keys
  {
    if k > 0 {
      WriteFirstKeys(r, k - 1);
    }
  }

  /** After k writes, the first k level columns hold their levels and every other label reads
      as before. */
  lemma {:induction false} WriteFirstCells(r: Row, lv: Levels, k: nat)
    requires k <= 5
    ensures forall m | 0 <= m < k :: At(WriteFirst(r, lv, k), LevelCols[m]) == Num(LevelValue(lv, m))
    ensures forall c | c !in LevelCols[..k] :: At(WriteFirst(r, lv, k), c) == At(r, c)
  {
    if k > 0 {
      WriteFirstCells(r, lv, k - 1);
      assert LevelCols[..k] == LevelCols[..k - 1] + [LevelCols[k - 1]];
    }
  }

  /** `add_pivot_levels` as the source runs it: fail on an absent input column, add the absent
      level columns, then fill the levels under the mask. */
  method AddPivotLevels(f: Frame) returns (res: Result<Frame>)
    requires WellFormed(f)
    ensures res == Pivoted(f)
  {
    if "High" !in f.cols { return Err(MissingColumn("High")); }
    if "Low" !in f.cols { return Err(MissingColumn("Low")); }
    var ref := RefColumn(f.cols);
    if ref !in f.cols { return Err(MissingColumn("Last")); }
    var g := EnsureColumns(f, LevelCols);
    var rows := WriteLevels(g.rows, ref);
    assert Pivoted(f).value.rows == rows;
    res := Ok(Frame(g.cols, rows));
  }

  /** Lines 350-371: compute the mask and the levels, then write them under the mask. */
  method WriteLevels(table: seq<Row>, ref: ColName) returns (out: seq<Row>)
    ensures out == seq(|table|, i requires 0 <= i < |table| => PivotRow(table[i], ref))
  {
    var need, levels := LevelMask(table, ref);
    out := WriteUnderMask(table, need, levels);
    assert forall j | 0 <= j < |table| :: out[j] == PivotRow(table[j], ref);
  }

  /** Lines 350-365, row by row: the mask `need_calc`, and the levels of every row whose three
      inputs are numbers (None where the source computes NaN). */
  method LevelMask(table: seq<Row>, ref: ColName) returns (need: seq<bool>, levels: seq<Option<Levels>>)
    ensures |need| == |table| && |levels| == |table|
    ensures forall j | 0 <= j < |table| ::
              need[j] == NeedCalc(table[j], ref) && (need[j] ==> levels[j] == Some(RowLevels(table[j], ref)))
  {
    need, levels := [], [];
    for i := 0 to |table|
      invariant |need| == i && |levels| == i
      invariant forall j | 0 <= j < i ::
                  need[j] == NeedCalc(table[j], ref) && (need[j] ==> levels[j] == Some(RowLevels(table[j], ref)))
    {
      var r := table[i];
      var valid := NumAt(r, "High").Some? && NumAt(r, "Low").Some? && NumAt(r, ref).Some?;
      levels := levels + [if valid then Some(RowLevels(r, ref)) else None];
      need := need + [NeedCalc(r, ref)];
    }
  }

  /** Lines 367-371: `df.loc[need_calc, col] = level[need_calc]` for the five columns in turn,
      in place on a copy of the rows. */
  method WriteUnderMask(table: seq<Row>, need: seq<bool>, levels: seq<Option<Levels>>) returns (out: seq<Row>)
    requires |need| == |table| && |levels| == |table|
    requires forall j | 0 <= j < |table| && need[j] :: levels[j].Some?
    ensures |out| == |table|
    ensures forall j | 0 <= j < |table| ::
              out[j] == if need[j] then WriteFirst(table[j], levels[j].value, 5) else table[j]
  {
    var n := |table|;
    var rows := new Row[n](i requires 0 <= i < n => table[i]);
    for k := 0 to 5
      invariant forall j | 0 <= j < n :: rows[j] == if need[j] then WriteFirst(table[j], levels[j].value, k) else table[j]
    {
      for i := 0 to n
        invariant forall j | 0 <= j < i :: rows[j] == if need[j] then WriteFirst(table[j], levels[j].value, k + 1) else table[j]
        invariant forall j | i <= j < n :: rows[j] == if need[j] then WriteFirst(table[j], levels[j].value, k) else table[j]
      {
        if need[i] {
          rows[i] := rows[i][LevelCols[k] := Num(LevelValue(levels[i].value, k))];
        }
      }
    }
    out := rows[..];
  }

  /** One row, on its own: columns other than the levels keep their cells; the levels are all
      written when the mask holds and all kept otherwise. */
  lemma PivotRowCells(r: Row, ref: ColName)
    ensures forall c | c !in LevelCols :: At(PivotRow(r, ref), c) == At(r, c)
    ensures NeedCalc(r, ref) ==> forall m | 0 <= m < 5 ::
              At(PivotRow(r, ref), LevelCols[m]) == Num(LevelValue(RowLevels(r, ref), m))
    ensures !NeedCalc(r, ref) ==> PivotRow(r, ref) == r
  {
    if NeedCalc(r, ref) {
      WriteFirstCells(r, RowLevels(r, ref), 5);
      assert LevelCols[..5] == LevelCols;
    }
  }

  /** The output row reads, label by label, as `PivotRow` of the input row: the columns the
      operation adds make no difference. */
  lemma PivotedRowAt(f: Frame, i: nat, c: ColName)
    requires WellFormed(f) && Pivoted(f).Ok? && i < |f.rows|
    ensures At(Pivoted(f).value.rows[i], c) == At(PivotRow(f.rows[i], RefColumn(f.cols)), c)
  {
    var g := WithMissingColumns(f, LevelCols);
    assert Pivoted(f).value.rows[i] == PivotRow(g.rows[i], RefColumn(f.cols));
    forall d ensures At(g.rows[i], d) == At(f.rows[i], d) {
      WithMissingColumnsAt(f, LevelCols, i, d);
    }
    PivotRowSameReads(g.rows[i], f.rows[i], RefColumn(f.cols), c);
  }

  /** Two rows that read alike under every label give outputs that read alike. */
  lemma PivotRowSameReads(r: Row, s: Row, ref: ColName, c: ColName)
    requires forall d :: At(r, d) == At(s, d)
    ensures At(PivotRow(r, ref), c) == At(PivotRow(s, ref), c)
  {
    assert NeedCalc(r, ref) == NeedCalc(s, ref) by {
      assert At(r, "High") == At(s, "High") && At(r, "Low") == At(s, "Low") && At(r, ref) == At(s, ref);
    }
    PivotRowCells(r, ref);
    PivotRowCells(s, ref);
    if NeedCalc(r, ref) && c in LevelCols {
      assert RowLevels(r, ref) == RowLevels(s, ref);
      var m :| 0 <= m < 5 && LevelCols[m] == c;
    }
  }

  /** A row's outcome, stated against the input row: every column other than the five levels
      keeps its cell; the five levels are written all together, with the classical values, when
      High, Low and the reference close are numbers and all five were missing, and otherwise
      all five keep their cells. */
  lemma PivotRowOutcome(f: Frame, i: nat)
    requires WellFormed(f) && Pivoted(f).Ok? && i < |f.rows|
    ensures var out := Pivoted(f).value.rows[i];
            var r := f.rows[i];
            var ref := RefColumn(f.cols);
            && (forall c | c !in LevelCols :: At(out, c) == At(r, c))
            && if NeedCalc(r, ref) then
                 var lv := RowLevels(r, ref);
                 && At(out, PivotCol) == Num(lv.pivot) && At(out, R1Col) == Num(lv.r1)
                 && At(out, R2Col) == Num(lv.r2) && At(out, S1Col) == Num(lv.s1)
                 && At(out, S2Col) == Num(lv.s2)
               else
                 forall c | c in LevelCols :: At(out, c) == At(r, c)
  {
    var ref := RefColumn(f.cols);
    var out := Pivoted(f).value.rows[i];
    forall c ensures At(out, c) == At(PivotRow(f.rows[i], ref), c) {
      PivotedRowAt(f, i, c);
    }
    OutcomeOfReads(out, f.rows[i], ref);
  }

  /** A row that reads as `PivotRow(r, ref)` under every label has the outcome above. */
  lemma OutcomeOfReads(out: Row, r: Row, ref: ColName)
    requires forall c :: At(out, c) == At(PivotRow(r, ref), c)
    ensures && (forall c | c !in LevelCols :: At(out, c) == At(r, c))
            && if NeedCalc(r, ref) then
                 var lv := RowLevels(r, ref);
                 && At(out, PivotCol) == Num(lv.pivot) && At(out, R1Col) == Num(lv.r1)
                 && At(out, R2Col) == Num(lv.r2) && At(out, S1Col) == Num(lv.s1)
                 && At(out, S2Col) == Num(lv.s2)
               else
                 forall c | c in LevelCols :: At(out, c) == At(r, c)
  {
    PivotRowCells(r, ref);
    assert LevelCols[0] == PivotCol && LevelCols[1] == R1Col && LevelCols[2] == R2Col;
    assert LevelCols[3] == S1Col && LevelCols[4] == S2Col;
  }

  /** The worked example: H = 110, L = 90, C = 100 give P = 100, R1 = 110, S1 = 90, R2 = 120,
      S2 = 80. */
  lemma ClassicalExample()
    ensures Classical(110.0, 90.0, 100.0) == Levels(100.0, 110.0, 120.0, 90.0, 80.0)
  {
  }

  /** When the close lies within the day's range, the levels form a ladder
      S2 <= S1 <= P <= R1 <= R2, symmetric about the pivot. */
  lemma ClassicalLadder(high: real, low: real, close: real)
    requires low <= close <= high
    ensures var lv := Classical(high, low, close);
            && low <= lv.pivot <= high
            && lv.s2 <= lv.s1 <= lv.pivot <= lv.r1 <= lv.r2
            && lv.r1 - lv.pivot == lv.pivot - low && lv.pivot - lv.s1 == high - lv.pivot
            && lv.r2 - lv.s2 == 2.0 * (high - low)
  {
  }

  /** The reference close is `Prev. Closed` whenever that column exists: a row whose
      `Prev. Closed` cell is missing is not computed, whatever its `Last`. */
  lemma PrevClosedColumnWins(f: Frame, i: nat)
    requires WellFormed(f) && Pivoted(f).Ok? && i < |f.rows|
    requires PrevClosedCol in f.cols && At(f.rows[i], PrevClosedCol) == Missing
    ensures forall c | c in LevelCols :: At(Pivoted(f).value.rows[i], c) == At(f.rows[i], c)
  {
    PivotRowOutcome(f, i);
  }

  /** A row whose five levels are all zero keeps them: only missing levels are recomputed. */
  lemma ZeroLevelsKept(f: Frame, i: nat)
    requires WellFormed(f) && Pivoted(f).Ok? && i < |f.rows|
    requires forall c | c in LevelCols :: At(f.rows[i], c) == Num(0.0)
    ensures forall c | c in LevelCols :: At(Pivoted(f).value.rows[i], c) == Num(0.0)
  {
    PivotRowOutcome(f, i);
    assert At(f.rows[i], PivotCol) != Missing;
  }
}
