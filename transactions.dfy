/** Session transaction aggregation (`aggregate_transactions`): classify every record as a buy,
    a sell or neither, then sum volumes and turnover per symbol and label the session's
    behaviour from the share of buy volume. */
module Transactions {
  import opened Tables

  datatype Behavior = Accumulation | Distribution | Normal

  /** One aggregate row: a symbol's volume totals, its buy ratio and its behaviour. */
  datatype Aggregate = Aggregate(
    symbol: Cell,
    totalVolume: real,
    totalTurnover: real,
    buyVolume: real,
    sellVolume: real,
    buyRatio: Option<real>,
    behavior: Behavior)

  /** A transaction record as the aggregation reads it: volume and turnover with missing
      values read as 0, and the record's side. */
  datatype Record = Record(symbol: Cell, volume: real, turnover: real, buy: bool, sell: bool)

  /** The quantity a per-symbol sum adds up. */
  datatype Measure = TotalVolume | TotalTurnover | BuyVolume | SellVolume | OtherVolume

  /** `str.upper()` on ASCII letters; other characters are kept. */
  function Upper(s: string): (u: string)
    ensures |u| == |s|
    ensures forall i | 0 <= i < |s| :: u[i] == if 'a' <= s[i] <= 'z' then s[i] - 'a' + 'A' else s[i]
  {
    if s == [] then [] else
      var c := s[0];
      [if 'a' <= c <= 'z' then c - 'a' + 'A' else c] + Upper(s[1..])
  }

  /** The side token says buy: `B` or `BUY` in any letter case. */
  predicate IsBuyToken(side: Cell) {
    side.Text? && (Upper(side.s) == "B" || Upper(side.s) == "BUY")
  }

  /** The side token says sell: `S` or `SELL` in any letter case. */
  predicate IsSellToken(side: Cell) {
    side.Text? && (Upper(side.s) == "S" || Upper(side.s) == "SELL")
  }

  /** Some record of the table is a buy by its `Side` token. */
  predicate AnySideBuy(f: Frame) {
    exists i | 0 <= i < |f.rows| :: IsBuyToken(At(f.rows[i], "Side"))
  }

  /** The side tokens are replaced by the sign of `Direction`. */
  predicate UseDirection(f: Frame) {
    !AnySideBuy(f) && "Direction" in f.cols
  }

  function RecordOf(r: Row, useDirection: bool): Record {
    var dir := NumAt(r, "Direction");
    Record(
      At(r, "Symbol"),
      NumAt(r, "Volume").GetOr(0.0),
      NumAt(r, "Turnover").GetOr(0.0),
      if useDirection then dir.Some? && dir.value > 0.0 else IsBuyToken(At(r, "Side")),
      if useDirection then dir.Some? && dir.value < 0.0 else IsSellToken(At(r, "Side")))
  }

  /** Every row as a record; no record is both a buy and a sell. */
  function Records(f: Frame): (recs: seq<Record>)
    ensures |recs| == |f.rows|
    ensures forall i | 0 <= i < |recs| :: !(recs[i].buy && recs[i].sell)
    ensures forall i | 0 <= i < |recs| :: recs[i].symbol == At(f.rows[i], "Symbol")
  {
    var useDirection := UseDirection(f);
    seq(|f.rows|, i requires 0 <= i < |f.rows| => RecordOf(f.rows[i], useDirection))
  }

  function Contribution(r: Record, m: Measure): real {
    match m
    case TotalVolume => r.volume
    case TotalTurnover => r.turnover
    case BuyVolume => if r.buy then r.volume else 0.0
    case SellVolume => if r.sell then r.volume else 0.0
    case OtherVolume => if r.buy || r.sell then 0.0 else r.volume
  }

  /** `groupby("Symbol")[...].sum()` for one symbol, 0 when no record counts. */
  function SymbolSum(recs: seq<Record>, s: Cell, m: Measure): real {
    if recs == [] then 0.0
    else (if recs[0].symbol == s then Contribution(recs[0], m) else 0.0) + SymbolSum(recs[1..], s, m)
  }

  /** The symbols of the records, missing ones left out (the grouping drops a missing key). */
  function PresentSymbols(recs: seq<Record>): (syms: seq<Cell>)
    ensures forall s :: s in syms <==> s != Missing && exists i | 0 <= i < |recs| :: recs[i].symbol == s
  {
    if recs == [] then []
    else
      var rest := PresentSymbols(recs[1..]);
      assert forall i | 1 <= i < |recs| :: recs[i] == recs[1..][i - 1];
      (if recs[0].symbol != Missing then [recs[0].symbol] else []) + rest
  }

  /** `classify_behavior`: Accumulation above 0.6, Distribution below 0.4, otherwise Normal,
      a missing ratio and both boundaries included. */
  function Classify(ratio: Option<real>): (b: Behavior)
    ensures b == Accumulation <==> ratio.Some? && ratio.value > 0.6
    ensures b == Distribution <==> ratio.Some? && ratio.value < 0.4
    ensures b == Normal <==> ratio.None? || 0.4 <= ratio.value <= 0.6
  {
    if ratio.None? then Normal
    else if ratio.value > 0.6 then Accumulation
    else if ratio.value < 0.4 then Distribution
    else Normal
  }

  /** The aggregate row of one symbol. The buy ratio exists exactly when the total volume is
      positive and then is the buy share of it. */
  function Summary(recs: seq<Record>, s: Cell): (a: Aggregate)
    ensures a.symbol == s
    ensures a.buyRatio.Some? <==> a.totalVolume > 0.0
    ensures a.buyRatio.Some? ==> a.buyRatio.value * a.totalVolume == a.buyVolume
    ensures a.behavior == Classify(a.buyRatio)
  {
    var total := SymbolSum(recs, s, TotalVolume);
    var buys := SymbolSum(recs, s, BuyVolume);
    var ratio := if total > 0.0 then Some(buys / total) else None;
    Aggregate(s, total, SymbolSum(recs, s, TotalTurnover), buys, SymbolSum(recs, s, SellVolume),
              ratio, Classify(ratio))
  }

  /** The aggregation of a transaction table: an empty table gives no rows; otherwise
      `Volume`, `Turnover`, `Side` and `Symbol` are read in that order, and the first one
      absent is the error. One row per distinct present symbol, in order of first appearance. */
  function Aggregated(f: Frame): (res: Result<seq<Aggregate>>)
    ensures res.Err? <==> |f.rows| > 0 && |f.cols| > 0 &&
                          !("Volume" in f.cols && "Turnover" in f.cols && "Side" in f.cols && "Symbol" in f.cols)
    ensures res.Err? ==> res.error.name in ["Volume", "Turnover", "Side", "Symbol"] && res.error.name !in f.cols
    ensures |f.rows| == 0 || |f.cols| == 0 ==> res == Ok([])
  {
    if |f.rows| == 0 || |f.cols| == 0 then Ok([])
    else if "Volume" !in f.cols then Err(MissingColumn("Volume"))
    else if "Turnover" !in f.cols then Err(MissingColumn("Turnover"))
    else if "Side" !in f.cols then Err(MissingColumn("Side"))
    else if "Symbol" !in f.cols then Err(MissingColumn("Symbol"))
    else
      var recs := Records(f);
      var syms := Dedup(PresentSymbols(recs));
      Ok(seq(|syms|, k requires 0 <= k < |syms| => Summary(recs, syms[k])))
  }

  /** Some row of the table carries symbol `s`. */
  predicate InSymbolColumn(f: Frame, s: Cell) {
    exists i | 0 <= i < |f.rows| :: At(f.rows[i], "Symbol") == s
  }

  /** One aggregate row per symbol: the rows' symbols are distinct, present, and are exactly
      the symbols of the records; each row sums that symbol's records. */
  lemma AggregatedRows(f: Frame)
    requires WellFormed(f) && Aggregated(f).Ok?
    ensures var aggs := Aggregated(f).value;
            && (forall k, l | 0 <= k < l < |aggs| :: aggs[k].symbol != aggs[l].symbol)
            && (forall k | 0 <= k < |aggs| :: aggs[k] == Summary(Records(f), aggs[k].symbol) && aggs[k].symbol != Missing)
            && (forall i | 0 <= i < |f.rows| && At(f.rows[i], "Symbol") != Missing ::
                  exists k | 0 <= k < |aggs| :: aggs[k].symbol == At(f.rows[i], "Symbol"))
            && (forall k | 0 <= k < |aggs| :: InSymbolColumn(f, aggs[k].symbol))
  {
    if |f.rows| > 0 && |f.cols| > 0 {
      AggregatedKeyed(f);
      AggregatedCoversTable(f);
      AggregatedFromTable(f);
    } else {
      assert forall i | 0 <= i < |f.rows| :: "Symbol" !in f.rows[i];
    }
  }

  /** The aggregate rows have distinct present symbols, each summing its own records. */
  lemma AggregatedKeyed(f: Frame)
    requires Aggregated(f).Ok? && |f.rows| > 0 && |f.cols| > 0
    ensures var aggs := Aggregated(f).value;
            && (forall k, l | 0 <= k < l < |aggs| :: aggs[k].symbol != aggs[l].symbol)
            && (forall k | 0 <= k < |aggs| :: aggs[k] == Summary(Records(f), aggs[k].symbol) && aggs[k].symbol != Missing)
  {
    var recs := Records(f);
    var syms := Dedup(PresentSymbols(recs));
    var aggs := Aggregated(f).value;
    assert |aggs| == |syms| && forall k | 0 <= k < |aggs| :: aggs[k].symbol == syms[k];
  }

  /** Every present symbol of the table has its aggregate row. */
  lemma AggregatedCoversTable(f: Frame)
    requires Aggregated(f).Ok? && |f.rows| > 0 && |f.cols| > 0
    ensures var aggs := Aggregated(f).value;
            forall i | 0 <= i < |f.rows| && At(f.rows[i], "Symbol") != Missing ::
              exists k | 0 <= k < |aggs| :: aggs[k].symbol == At(f.rows[i], "Symbol")
  {
    var recs := Records(f);
    var syms := Dedup(PresentSymbols(recs));
    var aggs := Aggregated(f).value;
    forall i | 0 <= i < |f.rows| && At(f.rows[i], "Symbol") != Missing
      ensures exists k | 0 <= k < |aggs| :: aggs[k].symbol == At(f.rows[i], "Symbol")
    {
      var k := SymbolOfRecord(recs, syms, i);
      assert aggs[k].symbol == syms[k];
    }
  }

  /** Every aggregate row's symbol occurs in the table. */
  lemma AggregatedFromTable(f: Frame)
    requires Aggregated(f).Ok? && |f.rows| > 0 && |f.cols| > 0
    ensures var aggs := Aggregated(f).value;
            forall k | 0 <= k < |aggs| :: InSymbolColumn(f, aggs[k].symbol)
  {
    var recs := Records(f);
    var syms := Dedup(PresentSymbols(recs));
    var aggs := Aggregated(f).value;
    forall k | 0 <= k < |aggs| ensures InSymbolColumn(f, aggs[k].symbol) {
      assert aggs[k].symbol == syms[k];
      var i := RecordOfSymbol(recs, syms, k);
    }
  }

  /** Each present record symbol is one of the distinct present symbols. */
  lemma SymbolOfRecord(recs: seq<Record>, syms: seq<Cell>, i: nat) returns (k: nat)
    requires syms == Dedup(PresentSymbols(recs)) && i < |recs| && recs[i].symbol != Missing
    ensures k < |syms| && syms[k] == recs[i].symbol
  {
    assert recs[i].symbol in PresentSymbols(recs);
    k := IndexOf(syms, recs[i].symbol);
  }

  /** Each distinct present symbol is the symbol of some record. */
  lemma RecordOfSymbol(recs: seq<Record>, syms: seq<Cell>, k: nat) returns (i: nat)
    requires syms == Dedup(PresentSymbols(recs)) && k < |syms|
    ensures i < |recs| && recs[i].symbol == syms[k]
  {
    assert syms[k] in PresentSymbols(recs);
    i :| 0 <= i < |recs| && recs[i].symbol == syms[k];
  }

  /** Side tokens decide whenever at least one record is a buy by its token. */
  lemma SideTokensDecide(f: Frame, i: nat)
    requires AnySideBuy(f) && i < |f.rows|
    ensures Records(f)[i].buy == IsBuyToken(At(f.rows[i], "Side"))
    ensures Records(f)[i].sell == IsSellToken(At(f.rows[i], "Side"))
  {
  }

  /** With no buy token anywhere and a `Direction` column, buys are the records with a
      positive direction and sells those with a negative one. */
  lemma DirectionFallback(f: Frame, i: nat)
    requires !AnySideBuy(f) && "Direction" in f.cols && i < |f.rows|
    ensures Records(f)[i].buy <==> NumAt(f.rows[i], "Direction").Some? && NumAt(f.rows[i], "Direction").value > 0.0
    ensures Records(f)[i].sell <==> NumAt(f.rows[i], "Direction").Some? && NumAt(f.rows[i], "Direction").value < 0.0
  {
  }

  /** With no buy token anywhere and no `Direction` column, no record is a buy, and the sells
      are still decided by the S / SELL tokens. */
  lemma NoBuyWithoutDirection(f: Frame)
    requires !AnySideBuy(f) && "Direction" !in f.cols
    ensures forall i | 0 <= i < |f.rows| :: !Records(f)[i].buy
    ensures forall i | 0 <= i < |f.rows| :: Records(f)[i].sell == IsSellToken(At(f.rows[i], "Side"))
  {
    forall i | 0 <= i < |f.rows| ensures !Records(f)[i].buy {
      assert !IsBuyToken(At(f.rows[i], "Side"));
    }
  }

  /** Buy, sell and unclassified volume partition a symbol's total volume. */
  lemma {:induction false} VolumeSplit(recs: seq<Record>, s: Cell)
    requires forall i | 0 <= i < |recs| :: !(recs[i].buy && recs[i].sell)
    ensures SymbolSum(recs, s, BuyVolume) + SymbolSum(recs, s, SellVolume) + SymbolSum(recs, s, OtherVolume)
            == SymbolSum(recs, s, TotalVolume)
  {
    if recs != [] {
      assert !(recs[0].buy && recs[0].sell);
      VolumeSplit(recs[1..], s);
    }
  }

  /** With non-negative volumes, each of buy, sell and unclassified volume is non-negative. */
  lemma {:induction false} PartsNonNegative(recs: seq<Record>, s: Cell, m: Measure)
    requires forall i | 0 <= i < |recs| :: recs[i].volume >= 0.0
    requires m != TotalTurnover
    ensures SymbolSum(recs, s, m) >= 0.0
  {
    if recs != [] {
      assert recs[0].volume >= 0.0;
      PartsNonNegative(recs[1..], s, m);
    }
  }

  /** With non-negative volumes the buy ratio, when it exists, lies in [0, 1]. */
  lemma BuyRatioBounds(recs: seq<Record>, s: Cell)
    requires forall i | 0 <= i < |recs| :: recs[i].volume >= 0.0 && !(recs[i].buy && recs[i].sell)
    ensures var a := Summary(recs, s);
            a.buyRatio.Some? ==> 0.0 <= a.buyRatio.value <= 1.0
  {
    var a := Summary(recs, s);
    VolumeSplit(recs, s);
    PartsNonNegative(recs, s, BuyVolume);
    PartsNonNegative(recs, s, SellVolume);
    PartsNonNegative(recs, s, OtherVolume);
    if a.buyRatio.Some? {
      UnitShare(a.buyRatio.value, a.totalVolume, a.buyVolume);
    }
  }

  lemma UnitShare(x: real, t: real, b: real)
    requires t > 0.0 && 0.0 <= b <= t && x * t == b
    ensures 0.0 <= x <= 1.0
  {
  }

  /** A symbol with volume but no buy record gets ratio 0 and is labelled Distribution,
      even when none of its records is classified at all. */
  lemma NoBuysIsDistribution(recs: seq<Record>, s: Cell)
    requires forall i | 0 <= i < |recs| && recs[i].symbol == s :: !recs[i].buy
    requires SymbolSum(recs, s, TotalVolume) > 0.0
    ensures Summary(recs, s).buyRatio == Some(0.0) && Summary(recs, s).behavior == Distribution
  {
    NoBuyVolume(recs, s);
  }

  lemma {:induction false} NoBuyVolume(recs: seq<Record>, s: Cell)
    requires forall i | 0 <= i < |recs| && recs[i].symbol == s :: !recs[i].buy
    ensures SymbolSum(recs, s, BuyVolume) == 0.0
  {
    if recs != [] {
      assert recs[0].symbol == s ==> !recs[0].buy;
      assert forall i | 0 <= i < |recs[1..]| :: recs[1..][i] == recs[i + 1];
      NoBuyVolume(recs[1..], s);
    }
  }

  /** A behaviour ranked from selling to buying pressure. */
  function Rank(b: Behavior): nat {
    match b
    case Distribution => 0
    case Normal => 1
    case Accumulation => 2
  }

  /** A larger buy ratio never gives a label further toward Distribution. */
  lemma ClassifyMonotone(x: real, y: real)
    requires x <= y
    ensures Rank(Classify(Some(x))) <= Rank(Classify(Some(y)))
  {
  }

  /** Sum of one measure over a list of symbols. */
  function SumOver(recs: seq<Record>, syms: seq<Cell>, m: Measure): real {
    if syms == [] then 0.0 else SymbolSum(recs, syms[0], m) + SumOver(recs, syms[1..], m)
  }

  /** Sum of one measure over the records whose symbol is in `syms`. */
  function SumWithin(recs: seq<Record>, syms: seq<Cell>, m: Measure): real {
    if recs == [] then 0.0
    else (if recs[0].symbol in syms then Contribution(recs[0], m) else 0.0) + SumWithin(recs[1..], syms, m)
  }

  /** Per-symbol sums over distinct symbols add up to the sum over their records. */
  lemma {:induction false} SumOverDistinct(recs: seq<Record>, syms: seq<Cell>, m: Measure)
    requires Distinct(syms)
    ensures SumOver(recs, syms, m) == SumWithin(recs, syms, m)
  {
    if recs == [] {
      SumOverNone(syms, m);
    } else {
      SumOverDistinct(recs[1..], syms, m);
      SumOverSplit(recs, syms, m);
    }
  }

  lemma {:induction false} SumOverNone(syms: seq<Cell>, m: Measure)
    ensures SumOver([], syms, m) == 0.0
  {
    if syms != [] {
      SumOverNone(syms[1..], m);
    }
  }

  /** Peeling the first record off every per-symbol sum: it counts once if its symbol is
      listed, since the list has no repetitions. */
  lemma {:induction false} SumOverSplit(recs: seq<Record>, syms: seq<Cell>, m: Measure)
    requires recs != [] && Distinct(syms)
    ensures SumOver(recs, syms, m)
            == (if recs[0].symbol in syms then Contribution(recs[0], m) else 0.0) + SumOver(recs[1..], syms, m)
  {
    if syms != [] {
      assert Distinct(syms[1..]);
      SumOverSplit(recs, syms[1..], m);
      if recs[0].symbol == syms[0] {
        assert recs[0].symbol !in syms[1..];
      }
    }
  }

  /** The value of a summed column in an aggregate row. */
  function Field(a: Aggregate, m: Measure): real
    requires m != OtherVolume
  {
    match m
    case TotalVolume => a.totalVolume
    case TotalTurnover => a.totalTurnover
    case BuyVolume => a.buyVolume
    case SellVolume => a.sellVolume
  }

  /** A summed column added up over all aggregate rows. */
  function AggregateSum(aggs: seq<Aggregate>, m: Measure): real
    requires m != OtherVolume
  {
    if aggs == [] then 0.0 else Field(aggs[0], m) + AggregateSum(aggs[1..], m)
  }

  /** Sum of one measure over the records that have a symbol. */
  function PresentSum(recs: seq<Record>, m: Measure): real {
    if recs == [] then 0.0
    else (if recs[0].symbol != Missing then Contribution(recs[0], m) else 0.0) + PresentSum(recs[1..], m)
  }

  /** Conservation: the aggregate rows' volume, turnover, buy and sell columns add up to the
      same quantity over every record that has a symbol. Nothing is lost or counted twice;
      only records without a symbol drop out. */
  lemma AggregatedTotals(f: Frame, m: Measure)
    requires WellFormed(f) && Aggregated(f).Ok? && m != OtherVolume
    ensures AggregateSum(Aggregated(f).value, m) == PresentSum(Records(f), m)
  {
    var recs := Records(f);
    var present := PresentSymbols(recs);
    if |f.rows| == 0 || |f.cols| == 0 {
      forall i | 0 <= i < |recs| ensures recs[i].symbol == Missing {
        assert At(f.rows[i], "Symbol") == Missing;
      }
      PresentSumOfSymbols(recs, [], m);
      SumWithinNone(recs, m);
    } else {
      var syms := Dedup(present);
      AggregateSumOfSummaries(recs, syms, Aggregated(f).value, m);
      SumOverDistinct(recs, syms, m);
      SumWithinSame(recs, syms, present, m);
      PresentSumOfSymbols(recs, present, m);
    }
  }

  lemma {:induction false} SumWithinNone(recs: seq<Record>, m: Measure)
    ensures SumWithin(recs, [], m) == 0.0
  {
    if recs != [] {
      SumWithinNone(recs[1..], m);
    }
  }

  lemma {:induction false} AggregateSumOfSummaries(recs: seq<Record>, syms: seq<Cell>, aggs: seq<Aggregate>, m: Measure)
    requires m != OtherVolume && |aggs| == |syms|
    requires forall k | 0 <= k < |aggs| :: aggs[k] == Summary(recs, syms[k])
    ensures AggregateSum(aggs, m) == SumOver(recs, syms, m)
  {
    if aggs != [] {
      AggregateSumOfSummaries(recs, syms[1..], aggs[1..], m);
    }
  }

  /** Summing over a list that holds exactly the present symbols is summing over the records
      that have a symbol. */
  lemma {:induction false} PresentSumOfSymbols(recs: seq<Record>, syms: seq<Cell>, m: Measure)
    requires forall i | 0 <= i < |recs| :: recs[i].symbol in syms <==> recs[i].symbol != Missing
    ensures SumWithin(recs, syms, m) == PresentSum(recs, m)
  {
    if recs != [] {
      assert forall i | 1 <= i < |recs| :: recs[1..][i - 1] == recs[i];
      PresentSumOfSymbols(recs[1..], syms, m);
    }
  }

  /** Only membership in the symbol list matters to `SumWithin`. */
  lemma {:induction false} SumWithinSame(recs: seq<Record>, a: seq<Cell>, b: seq<Cell>, m: Measure)
    requires forall s :: s in a <==> s in b
    ensures SumWithin(recs, a, m) == SumWithin(recs, b, m)
  {
    if recs != [] {
      SumWithinSame(recs[1..], a, b, m);
    }
  }
}
