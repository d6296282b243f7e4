/** The day's signal table (`build_signals_for_day`, after loading): the intraday table
    left-joined on `Symbol` with the per-symbol transaction aggregates, then the cash-in and
    cash-out turnover columns defaulted when the export lacks them. */
module Signals {
  import opened Tables
  import opened Transactions

  /** The aggregate table's columns besides the `Symbol` key, in order. */
  const AggCols: seq<ColName> :=
    ["total_volume", "total_turnover", "buy_volume", "sell_volume", "buy_ratio", "behavior"]

  const CashInCol: ColName := "Cash in Turnover"
  const CashOutCol: ColName := "Cash Out Turnover"

  function BehaviorCell(b: Behavior): Cell {
    match b
    case Accumulation => Text("Accumulation")
    case Distribution => Text("Distribution")
    case Normal => Text("Normal")
  }

  function OptionCell(x: Option<real>): Cell {
    if x.Some? then Num(x.value) else Missing
  }

  /** The aggregate row's cells under its non-key columns. */
  function AggCells(a: Aggregate): (m: Row)
    ensures m.Keys == ColSet(AggCols)
  {
    map["total_volume" := Num(a.totalVolume), "total_turnover" := Num(a.totalTurnover),
        "buy_volume" := Num(a.buyVolume), "sell_volume" := Num(a.sellVolume),
        "buy_ratio" := OptionCell(a.buyRatio), "behavior" := BehaviorCell(a.behavior)]
  }

  /** The cells an unmatched row gets: every aggregate column missing. */
  function NoMatchCells(): (m: Row)
    ensures m.Keys == ColSet(AggCols) && forall c | c in m :: m[c] == Missing
  {
    map c | c in ColSet(AggCols) :: Missing
  }

  /** The aggregate row whose symbol is `s`, if any. */
  function MatchOf(aggs: seq<Aggregate>, s: Cell): (m: Option<Aggregate>)
    ensures m.Some? ==> m.value in aggs && m.value.symbol == s
    ensures m.None? <==> forall k | 0 <= k < |aggs| :: aggs[k].symbol != s
  {
    if aggs == [] then None
    else if aggs[0].symbol == s then Some(aggs[0])
    else
      var m := MatchOf(aggs[1..], s);
      assert forall k | 1 <= k < |aggs| :: aggs[k] == aggs[1..][k - 1];
      m
  }

  /** One intraday row after the join: its own cells plus the matching aggregate's cells,
      or missing cells when no aggregate has its symbol. */
  function JoinedRow(r: Row, aggs: seq<Aggregate>): (j: Row)
    ensures j.Keys == r.Keys + ColSet(AggCols)
  {
    var m := MatchOf(aggs, At(r, "Symbol"));
    r + (if m.Some? then AggCells(m.value) else NoMatchCells())
  }

  /** The aggregate table's guarantees, which the join relies on: each symbol at most once,
      none missing. */
  predicate KeyedAggregates(aggs: seq<Aggregate>) {
    && (forall k | 0 <= k < |aggs| :: aggs[k].symbol != Missing)
    && (forall k, l | 0 <= k < l < |aggs| :: aggs[k].symbol != aggs[l].symbol)
  }

  /** `merge(agg, on="Symbol", how="left")`: one output row per intraday row, in order, with the
      aggregate columns appended; fails when the intraday table has no `Symbol` column. */
  function Joined(f: Frame, aggs: seq<Aggregate>): (res: Result<Frame>)
    requires WellFormed(f) && forall c | c in AggCols :: c !in f.cols
    ensures res.Err? <==> "Symbol" !in f.cols
    ensures res.Ok? ==> WellFormed(res.value) && res.value.cols == f.cols + AggCols
                        && |res.value.rows| == |f.rows|
  {
    if "Symbol" !in f.cols then Err(MissingColumn("Symbol"))
    else
      var cols := f.cols + AggCols;
      var rows := seq(|f.rows|, i requires 0 <= i < |f.rows| => JoinedRow(f.rows[i], aggs));
      assert ColSet(cols) == ColSet(f.cols) + ColSet(AggCols);
      assert Distinct(cols) by {
        forall i, j | 0 <= i < j < |cols| ensures cols[i] != cols[j] {
          if j >= |f.cols| && i < |f.cols| {
            assert cols[j] in AggCols;
          }
        }
      }
      assert forall i | 0 <= i < |rows| :: rows[i].Keys == ColSet(cols);
      Ok(Frame(cols, rows))
  }

  /** Lines 389-392: the cash-in turnover defaults to the session's total turnover (0 when the
      symbol had none), the cash-out turnover to 0; an existing column is kept. */
  function WithCashDefaults(f: Frame): (g: Frame)
    requires WellFormed(f) && "total_turnover" in f.cols
    ensures WellFormed(g) && |g.rows| == |f.rows|
    ensures |g.cols| >= |f.cols| && g.cols[..|f.cols|] == f.cols
    ensures CashInCol in g.cols && CashOutCol in g.cols
    ensures forall i, c | 0 <= i < |f.rows| && c in f.rows[i] :: g.rows[i][c] == f.rows[i][c]
    ensures CashInCol !in f.cols ==>
              forall i | 0 <= i < |f.rows| :: g.rows[i][CashInCol] == Num(NumAt(f.rows[i], "total_turnover").GetOr(0.0))
    ensures CashOutCol !in f.cols ==> forall i | 0 <= i < |f.rows| :: g.rows[i][CashOutCol] == Num(0.0)
  {
    var f1 := if CashInCol in f.cols then f
              else WithColumn(f, CashInCol, seq(|f.rows|, i requires 0 <= i < |f.rows| =>
                     Num(NumAt(f.rows[i], "total_turnover").GetOr(0.0))));
    if CashOutCol in f1.cols then f1
    else WithColumn(f1, CashOutCol, seq(|f1.rows|, _ => Num(0.0)))
  }

  /** The signal table from the loaded intraday table and the aggregates. */
  function SignalTable(f: Frame, aggs: seq<Aggregate>): (res: Result<Frame>)
    requires WellFormed(f) && forall c | c in AggCols :: c !in f.cols
    ensures res.Err? <==> "Symbol" !in f.cols
    ensures res.Ok? ==> WellFormed(res.value) && |res.value.rows| == |f.rows|
                        && |res.value.cols| >= |f.cols| && res.value.cols[..|f.cols|] == f.cols
                        && forall c | c in AggCols + [CashInCol, CashOutCol] :: c in res.value.cols
  {
    var j := Joined(f, aggs);
    if j.Err? then Err(j.error)
    else
      var g := WithCashDefaults(j.value);
      assert g.cols[..|j.value.cols|] == j.value.cols;
      assert j.value.cols[..|f.cols|] == f.cols;
      Ok(g)
  }

  /** The left join keeps every intraday row, in order, with every one of its cells. */
  lemma JoinKeepsIntradayRows(f: Frame, aggs: seq<Aggregate>, i: nat, c: ColName)
    requires WellFormed(f) && (forall c | c in AggCols :: c !in f.cols)
    requires SignalTable(f, aggs).Ok? && i < |f.rows| && c in f.cols
    ensures SignalTable(f, aggs).value.rows[i][c] == f.rows[i][c]
  {
    var j := Joined(f, aggs).value;
    assert j.rows[i] == JoinedRow(f.rows[i], aggs);
    assert c !in ColSet(AggCols);
  }

  /** A row whose symbol has an aggregate carries that aggregate's cells; any other row
      (a symbol with no transactions, or a missing symbol) has every aggregate column missing. */
  lemma JoinMatches(f: Frame, aggs: seq<Aggregate>, i: nat)
    requires WellFormed(f) && (forall c | c in AggCols :: c !in f.cols)
    requires KeyedAggregates(aggs)
    requires SignalTable(f, aggs).Ok? && i < |f.rows|
    ensures var out := SignalTable(f, aggs).value.rows[i];
            var s := At(f.rows[i], "Symbol");
            && (forall k, c | 0 <= k < |aggs| && aggs[k].symbol == s && c in AggCols :: out[c] == AggCells(aggs[k])[c])
            && ((forall k | 0 <= k < |aggs| :: aggs[k].symbol != s) ==> forall c | c in AggCols :: out[c] == Missing)
  {
    var j := Joined(f, aggs).value;
    var r := f.rows[i];
    assert j.rows[i] == JoinedRow(r, aggs);
    JoinedRowCells(r, aggs);
  }

  /** The joined row under the aggregate columns: the one matching aggregate's cells, or
      missing cells when none matches. */
  lemma JoinedRowCells(r: Row, aggs: seq<Aggregate>)
    requires KeyedAggregates(aggs)
    requires forall c | c in AggCols :: c !in r
    ensures var s := At(r, "Symbol");
            && (forall k, c | 0 <= k < |aggs| && aggs[k].symbol == s && c in AggCols :: JoinedRow(r, aggs)[c] == AggCells(aggs[k])[c])
            && ((forall k | 0 <= k < |aggs| :: aggs[k].symbol != s) ==> forall c | c in AggCols :: JoinedRow(r, aggs)[c] == Missing)
  {
    var m := MatchOf(aggs, At(r, "Symbol"));
    forall k | 0 <= k < |aggs| && aggs[k].symbol == At(r, "Symbol") ensures m == Some(aggs[k]) {
      var l :| 0 <= l < |aggs| && aggs[l] == m.value;
      assert l == k;
    }
  }

  /** Without the export's own columns, the cash-in turnover is the joined total turnover with a
      missing value read as 0, and the cash-out turnover is 0. */
  lemma CashDefaults(f: Frame, aggs: seq<Aggregate>, i: nat)
    requires WellFormed(f) && (forall c | c in AggCols :: c !in f.cols)
    requires SignalTable(f, aggs).Ok? && i < |f.rows|
    requires CashInCol !in f.cols && CashOutCol !in f.cols
    ensures var out := SignalTable(f, aggs).value.rows[i];
            out[CashInCol] == Num(NumAt(out, "total_turnover").GetOr(0.0)) && out[CashOutCol] == Num(0.0)
  {
    var j := Joined(f, aggs).value;
    assert SignalTable(f, aggs).value == WithCashDefaults(j);
    CashColumnsNotAggregates();
    assert j.cols == f.cols + AggCols;
    CashDefaultsRow(j, i);
  }

  lemma CashColumnsNotAggregates()
    ensures CashInCol !in AggCols && CashOutCol !in AggCols
  {
  }

  /** The defaulting step on its own, for a table with neither cash column. */
  lemma CashDefaultsRow(j: Frame, i: nat)
    requires WellFormed(j) && "total_turnover" in j.cols && i < |j.rows|
    requires CashInCol !in j.cols && CashOutCol !in j.cols
    ensures var out := WithCashDefaults(j).rows[i];
            out[CashInCol] == Num(NumAt(out, "total_turnover").GetOr(0.0)) && out[CashOutCol] == Num(0.0)
  {
    var out := WithCashDefaults(j).rows[i];
    assert "total_turnover" in j.rows[i];
    assert out["total_turnover"] == j.rows[i]["total_turnover"];
  }

  /** The signal table of a day: the transaction table is aggregated first, and its failure
      (a required column missing) is the day's failure. */
  function DaySignals(intraday: Frame, tx: Frame): (res: Result<Frame>)
    requires WellFormed(intraday) && WellFormed(tx) && forall c | c in AggCols :: c !in intraday.cols
    ensures res.Err? <==> Aggregated(tx).Err? || "Symbol" !in intraday.cols
    ensures Aggregated(tx).Err? ==> res == Err(Aggregated(tx).error)
    ensures res.Ok? ==> res == SignalTable(intraday, Aggregated(tx).value) && KeyedAggregates(Aggregated(tx).value)
    ensures |tx.rows| == 0 ==> res == SignalTable(intraday, [])
  {
    var a := Aggregated(tx);
    if a.Err? then Err(a.error)
    else
      AggregatesAreKeyed(tx);
      SignalTable(intraday, a.value)
  }

  /** The aggregation delivers what the join relies on. */
  lemma AggregatesAreKeyed(tx: Frame)
    requires WellFormed(tx) && Aggregated(tx).Ok?
    ensures KeyedAggregates(Aggregated(tx).value)
  {
    AggregatedRows(tx);
  }
}
