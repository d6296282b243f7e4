/** Support/resistance breakouts (`find_sr_breakouts`): after the pivot levels are filled, the
    rows whose last price reaches a resistance level or falls to a support level, one set per
    level, resistance sets by price change descending and support sets ascending. */
module Breakouts {
  import opened Tables
  import opened Sorting
  import opened Pivot

  /** The columns every breakout set shows, in order. */
  const ColsBasic: seq<ColName> :=
    ["Symbol", "S. Description", "Last", "% Change", "Volume", R1Col, R2Col, S1Col, S2Col]

  datatype Level = R1 | R2 | S1 | S2

  function LevelColumn(lv: Level): ColName {
    match lv
    case R1 => R1Col
    case R2 => R2Col
    case S1 => S1Col
    case S2 => S2Col
  }

  predicate IsResistance(lv: Level) {
    lv.R1? || lv.R2?
  }

  /** The row breaks the level: price and level are numbers and the price is at or above a
      resistance, or at or below a support. */
  predicate Breaks(r: Row, lv: Level) {
    var price := NumAt(r, "Last");
    var level := NumAt(r, LevelColumn(lv));
    price.Some? && level.Some? &&
    if IsResistance(lv) then price.value >= level.value else price.value <= level.value
  }

  /** The sort key of every set. */
  function ChangeOf(r: Row): Option<real> {
    NumAt(r, "% Change")
  }

  /** The mask of the rows that break the level. */
  function BreakMask(lv: Level): Row -> bool {
    r => Breaks(r, lv)
  }

  /** The shown columns of the rows at the given positions. */
  function Picked(rows: seq<Row>, ks: seq<nat>): (p: seq<Row>)
    requires forall k | 0 <= k < |ks| :: ks[k] < |rows|
  {
    seq(|ks|, k requires 0 <= k < |ks| => Project(rows[ks[k]], ColsBasic))
  }

  /** One breakout set: the breaking rows' shown columns, sorted on `% Change`, descending for
      a resistance and ascending for a support, missing changes last. */
  function BreakoutSet(rows: seq<Row>, lv: Level): (s: seq<Row>)
    ensures multiset(s) == multiset(Picked(rows, Where(rows, BreakMask(lv))))
    ensures SortedOn(s, ChangeOf, IsResistance(lv))
  {
    SortOn(Picked(rows, Where(rows, BreakMask(lv))), ChangeOf, IsResistance(lv))
  }

  datatype BreakoutSets = BreakoutSets(r1: seq<Row>, r2: seq<Row>, s1: seq<Row>, s2: seq<Row>)

  function SetOf(b: BreakoutSets, lv: Level): seq<Row> {
    match lv
    case R1 => b.r1
    case R2 => b.r2
    case S1 => b.s1
    case S2 => b.s2
  }

  /** The whole operation: the pivot step's failure, or the first shown column the table
      lacks (selecting the shown columns fails even when no row breaks), or the four sets. */
  function Breakouts(f: Frame): (res: Result<BreakoutSets>)
    requires WellFormed(f)
    ensures res.Ok? <==> "High" in f.cols && "Low" in f.cols && forall c | c in ColsBasic[..5] :: c in f.cols
  {
    var p := Pivoted(f);
    assert ColsBasic[..5][2] == "Last";
    if p.Err? then Err(p.error)
    else
      var g := p.value;
      var absent := FirstAbsent(ColsBasic, g.cols);
      ShownColumns(f);
      if absent.Some? then Err(MissingColumn(absent.value))
      else
        Ok(BreakoutSets(BreakoutSet(g.rows, R1), BreakoutSet(g.rows, R2),
                        BreakoutSet(g.rows, S1), BreakoutSet(g.rows, S2)))
  }

  /** After the pivot step the level columns are all there, so a shown column is absent
      exactly when the input table lacks it. */
  lemma ShownColumns(f: Frame)
    requires WellFormed(f) && Pivoted(f).Ok?
    ensures var g := Pivoted(f).value;
            && (FirstAbsent(ColsBasic, g.cols).None? <==> forall c | c in ColsBasic[..5] :: c in f.cols)
            && (FirstAbsent(ColsBasic, g.cols).Some? ==> FirstAbsent(ColsBasic, g.cols).value !in f.cols)
  {
    var g := Pivoted(f).value;
    assert g.cols == g.cols[..|f.cols|] + g.cols[|f.cols|..];
    forall c | c in ColsBasic[..5] ensures c in g.cols <==> c in f.cols {
      assert c !in LevelCols;
    }
  }

  /** Each set of the result is the breakout set of the pivoted table's rows. */
  lemma SetsOfPivoted(f: Frame, lv: Level)
    requires WellFormed(f) && Breakouts(f).Ok?
    ensures SetOf(Breakouts(f).value, lv) == BreakoutSet(Pivoted(f).value.rows, lv)
  {
  }

  /** Every element of a breakout set is the shown columns of a row that breaks its level. */
  lemma BreakoutSetSound(rows: seq<Row>, lv: Level)
    ensures forall x | x in BreakoutSet(rows, lv) ::
              exists i | 0 <= i < |rows| :: Breaks(rows[i], lv) && x == Project(rows[i], ColsBasic)
  {
    var s := BreakoutSet(rows, lv);
    var ks := Where(rows, BreakMask(lv));
    var picked := Picked(rows, ks);
    forall x | x in s ensures exists i | 0 <= i < |rows| :: Breaks(rows[i], lv) && x == Project(rows[i], ColsBasic) {
      assert x in multiset(picked);
      var k :| 0 <= k < |picked| && picked[k] == x;
      assert Breaks(rows[ks[k]], lv);
    }
  }

  /** Every row that breaks the level has its shown columns in the set. */
  lemma BreakoutSetComplete(rows: seq<Row>, lv: Level)
    ensures forall i | 0 <= i < |rows| && Breaks(rows[i], lv) :: Project(rows[i], ColsBasic) in BreakoutSet(rows, lv)
  {
    var s := BreakoutSet(rows, lv);
    var ks := Where(rows, BreakMask(lv));
    var picked := Picked(rows, ks);
    forall i | 0 <= i < |rows| && Breaks(rows[i], lv) ensures Project(rows[i], ColsBasic) in s {
      var k :| 0 <= k < |ks| && ks[k] == i;
      assert picked[k] in multiset(picked);
    }
  }

  /** The comparisons are inclusive: a price exactly at a level breaks it, resistance and
      support alike. */
  lemma BoundaryBreaks(r: Row, lv: Level)
    requires NumAt(r, "Last").Some? && NumAt(r, LevelColumn(lv)) == NumAt(r, "Last")
    ensures Breaks(r, lv)
  {
  }

  /** A row without a numeric last price, or without the level, is in no set. */
  lemma NoPriceNoBreak(r: Row, lv: Level)
    requires NumAt(r, "Last").None? || NumAt(r, LevelColumn(lv)).None?
    ensures !Breaks(r, lv)
  {
  }
}
