/** The group-picks filter (`filter_group_picks`): the signal rows whose symbol is in a list of
    recommended symbols, with a neutral score where the table has none, sorted by score,
    highest first, and cut to the shown columns. */
module GroupPicks {
  import opened Tables
  import opened Sorting
  import Score

  const ProbCol := Score.ProbCol

  /** The columns shown, in order, when the table has them. */
  const ShowCols: seq<ColName> := ["Symbol", "S. Description", "% Change", "Volume", "buy_ratio", "behavior", ProbCol]

  /** The neutral score a table without `AI_Prob` gets. */
  const NeutralProb: real := 0.5

  /** The symbol as text (`astype(str)`), which is what the list is matched against. */
  function SymbolText(r: Row, fmt: real -> string): string {
    AsText(At(r, "Symbol"), fmt)
  }

  /** The mask of the rows whose symbol is in the list. */
  function WantMask(fmt: real -> string, wanted: seq<string>): Row -> bool {
    r => SymbolText(r, fmt) in wanted
  }

  /** A row as it is sorted: its symbol written as text and, when the table has no score, the
      neutral score added. */
  function Prepared(r: Row, fmt: real -> string, hasProb: bool): Row {
    var s := r["Symbol" := Text(SymbolText(r, fmt))];
    if hasProb then s else s[ProbCol := Num(NeutralProb)]
  }

  function ProbKey(r: Row): Option<real> {
    NumAt(r, ProbCol)
  }

  /** The shown columns the result has. */
  function ShownCols(f: Frame): seq<ColName> {
    Present(ShowCols, if ProbCol in f.cols then f.cols else f.cols + [ProbCol])
  }

  /** The shown columns are distinct shown labels, `Symbol` and `AI_Prob` among them. */
  lemma ShownColsFacts(f: Frame)
    requires "Symbol" in f.cols
    ensures Distinct(ShownCols(f)) && "Symbol" in ShownCols(f) && ProbCol in ShownCols(f)
    ensures forall c | c in ShownCols(f) :: c in ShowCols
  {
    ShowColsDistinct();
  }

  lemma ShowColsDistinct()
    ensures Distinct(ShowCols)
  {
  }

  /** Rows with the same keys keep them through a permutation. */
  lemma SortedKeys(xs: seq<Row>, ys: seq<Row>, keys: set<ColName>)
    requires multiset(ys) == multiset(xs)
    requires forall k | 0 <= k < |xs| :: xs[k].Keys == keys
    ensures forall k | 0 <= k < |ys| :: ys[k].Keys == keys
  {
    forall k | 0 <= k < |ys| ensures ys[k].Keys == keys {
      assert ys[k] in multiset(xs);
    }
  }

  /** A prepared row has every shown column. */
  lemma PreparedKeys(f: Frame, r: Row, fmt: real -> string)
    requires r.Keys == ColSet(f.cols)
    ensures ColSet(ShownCols(f)) <= Prepared(r, fmt, ProbCol in f.cols).Keys
  {
  }

  /** The requested rows, prepared and cut to the shown columns, in table order. */
  function Shown(f: Frame, fmt: real -> string, wanted: seq<string>): (rs: seq<Row>)
    requires WellFormed(f)
    ensures forall k | 0 <= k < |rs| :: rs[k].Keys == ColSet(ShownCols(f))
  {
    var ks := Where(f.rows, WantMask(fmt, wanted));
    var cols := ShownCols(f);
    seq(|ks|, k requires 0 <= k < |ks| =>
      PreparedKeys(f, f.rows[ks[k]], fmt);
      Project(Prepared(f.rows[ks[k]], fmt, ProbCol in f.cols), cols))
  }

  /** Lines 610-628: fails without a `Symbol` column; otherwise the requested rows with the
      shown columns, highest score first, a missing score last. The rows are cut to the shown
      columns before sorting rather than after, which is the same since the score is shown. */
  function GroupPicks(f: Frame, fmt: real -> string, wanted: seq<string>): (res: Result<Frame>)
    requires WellFormed(f)
    ensures res.Err? <==> "Symbol" !in f.cols
    ensures res.Ok? ==> && WellFormed(res.value)
                        && "Symbol" in res.value.cols && ProbCol in res.value.cols
                        && (forall c | c in res.value.cols :: c in ShowCols)
                        && SortedOn(res.value.rows, ProbKey, true)
                        && multiset(res.value.rows) == multiset(Shown(f, fmt, wanted))
  {
    if "Symbol" !in f.cols then Err(MissingColumn("Symbol"))
    else
      var shown := Shown(f, fmt, wanted);
      var rows := SortOn(shown, ProbKey, true);
      ShownColsFacts(f);
      SortedKeys(shown, rows, ColSet(ShownCols(f)));
      Ok(Frame(ShownCols(f), rows))
  }

  /** `x` is the shown form of a table row whose symbol text is in the list, and it carries that
      symbol as text. */
  predicate FromRequestedRow(f: Frame, fmt: real -> string, wanted: seq<string>, x: Row) {
    && "Symbol" in x && x["Symbol"].Text? && x["Symbol"].s in wanted
    && exists i | 0 <= i < |f.rows| :: && SymbolText(f.rows[i], fmt) in wanted
                                       && x == Project(Prepared(f.rows[i], fmt, ProbCol in f.cols), ShownCols(f))
  }

  /** Every shown row is a requested row of the table, so its symbol is in the list. */
  lemma GroupPicksSound(f: Frame, fmt: real -> string, wanted: seq<string>)
    requires WellFormed(f) && "Symbol" in f.cols
    ensures forall x | x in GroupPicks(f, fmt, wanted).value.rows :: FromRequestedRow(f, fmt, wanted, x)
  {
    var out := GroupPicks(f, fmt, wanted).value;
    PermutationMembers(out.rows, Shown(f, fmt, wanted));
    ShownSound(f, fmt, wanted);
  }

  /** Each requested row, as shown, comes from a table row whose symbol text is in the list. */
  lemma ShownSound(f: Frame, fmt: real -> string, wanted: seq<string>)
    requires WellFormed(f) && "Symbol" in f.cols
    ensures forall x | x in Shown(f, fmt, wanted) :: FromRequestedRow(f, fmt, wanted, x)
  {
    var shown := Shown(f, fmt, wanted);
    var ks := Where(f.rows, WantMask(fmt, wanted));
    var cols := ShownCols(f);
    ShownColsFacts(f);
    forall x | x in shown ensures FromRequestedRow(f, fmt, wanted, x) {
      var k :| 0 <= k < |shown| && shown[k] == x;
      var i := ks[k];
      assert x == Project(Prepared(f.rows[i], fmt, ProbCol in f.cols), cols);
    }
  }

  /** Every row whose symbol is in the list is shown. */
  lemma GroupPicksComplete(f: Frame, fmt: real -> string, wanted: seq<string>, i: nat)
    requires WellFormed(f) && "Symbol" in f.cols && i < |f.rows| && SymbolText(f.rows[i], fmt) in wanted
    ensures Project(Prepared(f.rows[i], fmt, ProbCol in f.cols), ShownCols(f)) in GroupPicks(f, fmt, wanted).value.rows
  {
    var shown := Shown(f, fmt, wanted);
    var ks := Where(f.rows, WantMask(fmt, wanted));
    var k :| 0 <= k < |ks| && ks[k] == i;
    assert shown[k] in multiset(shown);
  }

  /** Only membership in the list matters: repeating a symbol, or listing them in another order,
      gives the same result. */
  lemma DuplicatesIrrelevant(f: Frame, fmt: real -> string, w1: seq<string>, w2: seq<string>)
    requires WellFormed(f) && forall s :: s in w1 <==> s in w2
    ensures GroupPicks(f, fmt, w1) == GroupPicks(f, fmt, w2)
  {
    WhereSameMask(f.rows, WantMask(fmt, w1), WantMask(fmt, w2));
  }

  /** Two masks that agree on every row select the same positions. */
  lemma {:induction false} WhereSameMask(rows: seq<Row>, m1: Row -> bool, m2: Row -> bool)
    requires forall i | 0 <= i < |rows| :: m1(rows[i]) == m2(rows[i])
    ensures Where(rows, m1) == Where(rows, m2)
  {
    if rows != [] {
      var init := rows[..|rows| - 1];
      assert forall i | 0 <= i < |init| :: init[i] == rows[i];
      WhereSameMask(init, m1, m2);
    }
  }

  /** A list naming no symbol of the table gives an empty result, not a failure. */
  lemma NoMatchesEmpty(f: Frame, fmt: real -> string, wanted: seq<string>)
    requires WellFormed(f) && "Symbol" in f.cols
    requires forall i | 0 <= i < |f.rows| :: SymbolText(f.rows[i], fmt) !in wanted
    ensures GroupPicks(f, fmt, wanted).Ok? && GroupPicks(f, fmt, wanted).value.rows == []
  {
  }

  /** Without a score column every shown row carries the neutral score 0.5; with one, each shown
      row keeps its own score. */
  lemma ProbabilityColumn(f: Frame, fmt: real -> string, wanted: seq<string>)
    requires WellFormed(f) && "Symbol" in f.cols
    ensures var out := GroupPicks(f, fmt, wanted).value;
            && (ProbCol !in f.cols ==> forall x | x in out.rows :: x[ProbCol] == Num(NeutralProb))
            && (ProbCol in f.cols ==> forall x: Row | x in out.rows ::
                  exists i | 0 <= i < |f.rows| :: x[ProbCol] == f.rows[i][ProbCol] && SymbolText(f.rows[i], fmt) in wanted)
  {
    var out := GroupPicks(f, fmt, wanted).value;
    GroupPicksSound(f, fmt, wanted);
    ShownColsFacts(f);
    forall x | x in out.rows
      ensures exists i | 0 <= i < |f.rows| :: x[ProbCol] == Prepared(f.rows[i], fmt, ProbCol in f.cols)[ProbCol]
                                             && SymbolText(f.rows[i], fmt) in wanted
    {
      assert FromRequestedRow(f, fmt, wanted, x);
      var i :| 0 <= i < |f.rows| && SymbolText(f.rows[i], fmt) in wanted
               && x == Project(Prepared(f.rows[i], fmt, ProbCol in f.cols), ShownCols(f));
    }
  }
}
