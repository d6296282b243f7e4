/** Column normalisation: the three readers rename the exporters' Arabic headers to canonical
    English labels through fixed maps, then drop every later column whose new label repeats an
    earlier one (pandas `df.loc[:, ~df.columns.duplicated()]`: the first column wins). */
module Normalize {
  import opened Tables

  /** A table as read from a file, before renaming: header labels and positional rows. */
  datatype Sheet = Sheet(header: seq<string>, rows: seq<seq<Cell>>)

  predicate Rectangular(s: Sheet) {
    forall i | 0 <= i < |s.rows| :: |s.rows[i]| == |s.header|
  }

  /** Headers of the intraday snapshot export. */
  const IntradayNames: map<string, ColName> := map[
      "الرمز" := "Symbol",
      "الإسم المختصر" := "S. Description",
      "الاسم المختصر" := "S. Description",
      "أخر سعر" := "Last",
      "آخر سعر" := "Last",
      "التغير %" := "% Change",
      "حجم التداول" := "Volume",
      "قيمة التداول" := "Turnover",
      "حجم السيولة الداخلة" := "Cash In Volume",
      "حجم السيولة الخارجة" := "Cash Out Volume",
      "الصفقات" := "Trades",
      "مخطط السيولة %" := "Range",
      "(R1) المقاومة 1" := "Resistance 1 (R1)",
      "(R2) المقاومة 2" := "Resistance 2 (R2)",
      "(S1) الدعم 1" := "Support 1 (S1)",
      "(S2) الدعم 2" := "Support 2 (S2)",
      "الأدنى" := "Low",
      "أعلى" := "High",
      "فتح" := "Open",
      "إغلاق" := "Close",
      "الأدنى خلال 52 أسبوع" := "52 week Low",
      "الأعلى خلال 52 أسبوع" := "52 week High",
      "نسبة الطلب على العرض" := "Bid Offer Ratio",
      "الطلب" := "Bid",
      "العرض" := "Offer",
      "كمية الطلب" := "Bid Qty.",
      "كمية العرض" := "Offer Qty.",
      "القطاع" := "Sector",
      "مضاعف ربحية السهم" := "P-E Ratio",
      "مضاعف القيمة الدفترية" := "P-B Ratio",
      "ربحية السهم" := "Earning Per Share",
      "% المدى" := "Range",
      "صفقات السيولة الداخلة" := "Cash In Trades",
      "صفقات السيولة الخارجة" := "Cash Out Trades",
      "قيمة السيولة الخارجة" := "Cash Out Turnover",
      "قيمة السيولة الداخلة" := "Cash in Turnover",
      "مؤشر السيولة النقدية" := "Cash Flow Index",
      "نقطة الإرتكاز" := "Pivot Point",
      "رسملة السوق بالآلاف" := "Mkt. Cap./1000",
      "تغير متوسط السعر المرجح %" := "VWAP Change",
      "إقفال سابق" := "Prev. Closed",
      "نسبة السيولة" := "Cash Map % Value",
      "S. Description" := "S. Description"
    ]

  /** Headers of the session transaction log. */
  const TransactionNames: map<string, ColName> := map[
      "اسم السهم" := "Description",
      "الإسم المختصر" := "Description",
      "الاسم" := "Description",
      "الرمز" := "Symbol",
      "السعر" := "Price",
      "النوع" := "Side",
      "التغير %" := "% Change",
      "حجم التداول" := "Volume",
      "قيمة التداول" := "Turnover",
      "مُعرف التسلسل" := "Sequence ID",
      "الوقت" := "Time",
      "Tick" := "Tick",
      "إتجاه" := "Direction",
      "اتجاه" := "Direction"
    ]

  /** Headers of a per-symbol historical bar file. */
  const CaseNames: map<string, ColName> := map[
      "التاريخ" := "Date",
      "فتح" := "Open",
      "أعلى" := "High",
      "الأدنى" := "Low",
      "مغلق" := "Closed",
      "إقفال سابق" := "Prev. Closed",
      "التغير %" := "%Chg",
      "التغير" := "Chg.",
      "قيمة التداول" := "Turnover",
      "حجم التداول" := "Volume"
    ]

  /** Columns the transaction table always ends up with, added in this order when absent. */
  const TransactionRequired: seq<ColName> := ["Symbol", "Side", "Volume", "Turnover"]

  /** `df.rename(columns=names)` on one label: mapped labels are translated, others kept. */
  function Rename(names: map<string, ColName>, h: string): ColName {
    if h in names then names[h] else h
  }

  function Renamed(names: map<string, ColName>, header: seq<string>): seq<ColName> {
    seq(|header|, i requires 0 <= i < |header| => Rename(names, header[i]))
  }

  /** One raw row under the kept labels: each label reads the first raw column renamed to it. */
  function NormalizedRow(labels: seq<ColName>, cols: seq<ColName>, raw: seq<Cell>): (r: Row)
    requires |raw| == |labels| && forall c | c in cols :: c in labels
    ensures r.Keys == ColSet(cols)
    ensures forall c | c in cols :: r[c] == raw[IndexOf(labels, c)]
  {
    map c | c in ColSet(cols) :: raw[IndexOf(labels, c)]
  }

  /** Rename, then keep only the first column of each label. The cell under label `c` comes
      from the first raw column whose new label is `c`. */
  function Normalized(names: map<string, ColName>, s: Sheet): (f: Frame)
    requires Rectangular(s)
    ensures WellFormed(f) && |f.rows| == |s.rows|
    ensures forall c | c in f.cols :: c in Renamed(names, s.header)
    ensures forall k | 0 <= k < |s.header| :: Rename(names, s.header[k]) in f.cols
    ensures forall i, c | 0 <= i < |f.rows| && c in f.cols ::
              f.rows[i][c] == s.rows[i][IndexOf(Renamed(names, s.header), c)]
  {
    var labels := Renamed(names, s.header);
    var cols := Dedup(labels);
    RenamedCovered(names, s.header);
    Frame(cols, NormalizedRows(labels, cols, s.rows))
  }

  function NormalizedRows(labels: seq<ColName>, cols: seq<ColName>, raws: seq<seq<Cell>>): (rows: seq<Row>)
    requires forall c | c in cols :: c in labels
    requires forall i | 0 <= i < |raws| :: |raws[i]| == |labels|
    ensures |rows| == |raws|
    ensures forall i | 0 <= i < |rows| :: rows[i] == NormalizedRow(labels, cols, raws[i])
  {
    seq(|raws|, i requires 0 <= i < |raws| => NormalizedRow(labels, cols, raws[i]))
  }

  lemma RenamedCovered(names: map<string, ColName>, header: seq<string>)
    ensures forall k | 0 <= k < |header| :: Rename(names, header[k]) in Dedup(Renamed(names, header))
  {
    var labels := Renamed(names, header);
    forall k | 0 <= k < |header| ensures Rename(names, header[k]) in Dedup(labels) {
      assert labels[k] == Rename(names, header[k]);
      assert labels[k] in labels;
    }
  }

  /** First wins: the k-th raw column, when no earlier column gets the same label, supplies
      every cell of its label; a later column with that label is dropped. */
  lemma FirstColumnWins(names: map<string, ColName>, s: Sheet, k: nat)
    requires Rectangular(s) && k < |s.header|
    requires forall j | 0 <= j < k :: Rename(names, s.header[j]) != Rename(names, s.header[k])
    ensures var f := Normalized(names, s);
            var c := Rename(names, s.header[k]);
            c in f.cols && forall i | 0 <= i < |f.rows| :: f.rows[i][c] == s.rows[i][k]
  {
    var labels := Renamed(names, s.header);
    assert labels[..k] == Renamed(names, s.header[..k]);
    assert IndexOf(labels, labels[k]) == k;
  }

  /** A header no map entry mentions keeps its label and its values, unless an earlier column
      already took that label. */
  lemma UnmappedPassesThrough(names: map<string, ColName>, s: Sheet, k: nat)
    requires Rectangular(s) && k < |s.header| && s.header[k] !in names
    requires forall j | 0 <= j < k :: Rename(names, s.header[j]) != s.header[k]
    ensures var f := Normalized(names, s);
            s.header[k] in f.cols && forall i | 0 <= i < |f.rows| :: f.rows[i][s.header[k]] == s.rows[i][k]
  {
    FirstColumnWins(names, s, k);
  }

  /** The intraday reader's renaming: both spellings of "last price" become `Last`. */
  function NormalizeIntraday(s: Sheet): (f: Frame)
    requires Rectangular(s)
    ensures WellFormed(f) && |f.rows| == |s.rows|
    ensures forall c | c in f.cols :: c in Renamed(IntradayNames, s.header)
    ensures forall k | 0 <= k < |s.header| :: Rename(IntradayNames, s.header[k]) in f.cols
    ensures forall i, c | 0 <= i < |f.rows| && c in f.cols ::
              f.rows[i][c] == s.rows[i][IndexOf(Renamed(IntradayNames, s.header), c)]
    ensures ("أخر سعر" in s.header || "آخر سعر" in s.header) ==> "Last" in f.cols
  {
    LastSpellings();
    Normalized(IntradayNames, s)
  }

  /** The historical-bar reader's renaming; its day-first date parsing is not modelled. */
  function NormalizeCase(s: Sheet): (f: Frame)
    requires Rectangular(s)
    ensures WellFormed(f) && |f.rows| == |s.rows|
    ensures forall c | c in f.cols :: c in Renamed(CaseNames, s.header)
    ensures forall k | 0 <= k < |s.header| :: Rename(CaseNames, s.header[k]) in f.cols
    ensures forall i, c | 0 <= i < |f.rows| && c in f.cols ::
              f.rows[i][c] == s.rows[i][IndexOf(Renamed(CaseNames, s.header), c)]
  {
    Normalized(CaseNames, s)
  }

  /** Both spellings of "last price" in one export become one `Last` column holding the first
      spelling's values. */
  lemma TwoLastPriceSpellings(a: Cell, b: Cell)
    ensures var f := NormalizeIntraday(Sheet(["أخر سعر", "آخر سعر"], [[a, b]]));
            f.cols == ["Last"] && f.rows == [map["Last" := a]]
  {
    LastSpellings();
    TwoColumnsOneLabel(IntradayNames, "أخر سعر", "آخر سعر", a, b);
  }

  /** Two raw columns renamed to the same label leave one column, holding the first's cell. */
  lemma TwoColumnsOneLabel(names: map<string, ColName>, x: string, y: string, a: Cell, b: Cell)
    requires Rename(names, x) == Rename(names, y)
    ensures var c := Rename(names, x);
            var f := Normalized(names, Sheet([x, y], [[a, b]]));
            f.cols == [c] && f.rows == [map[c := a]]
  {
    var c := Rename(names, x);
    var labels := Renamed(names, [x, y]);
    assert labels == [c, c];
    RepeatedLabel(c);
    assert NormalizedRow(labels, [c], [a, b]) == map[c := a];
  }

  lemma RepeatedLabel(c: ColName)
    ensures Dedup([c, c]) == [c] && IndexOf([c, c], c) == 0
  {
    FirstWinsTwin(c);
  }

  lemma FirstWinsOne(c: ColName)
    ensures FirstWins([c]) == [0]
  {
    assert [c][..0] == [];
    assert FirstAt([c], 0);
  }

  lemma FirstWinsTwin(c: ColName)
    ensures FirstWins([c, c]) == [0]
  {
    FirstWinsOne(c);
    assert [c, c][..1] == [c];
    assert !FirstAt([c, c], 1) by {
      assert [c, c][0] == [c, c][1];
    }
  }

  lemma LastSpellings()
    ensures Rename(IntradayNames, "أخر سعر") == "Last" && Rename(IntradayNames, "آخر سعر") == "Last"
  {
    LastWithHamza();
    LastWithMadda();
  }

  lemma LastWithHamza()
    ensures Rename(IntradayNames, "أخر سعر") == "Last"
  {
  }

  lemma LastWithMadda()
    ensures Rename(IntradayNames, "آخر سعر") == "Last"
  {
  }

  /** The transaction reader's normalisation: rename, drop repeated labels, then add `Symbol`,
      `Side`, `Volume` and `Turnover` as all-missing columns when absent. */
  method NormalizeTransactions(s: Sheet) returns (f: Frame)
    requires Rectangular(s)
    ensures WellFormed(f) && |f.rows| == |s.rows|
    ensures forall c | c in TransactionRequired :: c in f.cols
    ensures forall k | 0 <= k < |s.header| :: Rename(TransactionNames, s.header[k]) in f.cols
    ensures forall c | c in f.cols :: c in Renamed(TransactionNames, s.header) || c in TransactionRequired
    ensures forall i, c | 0 <= i < |f.rows| && c in f.cols && c !in Renamed(TransactionNames, s.header) :: f.rows[i][c] == Missing
    ensures forall i, c | 0 <= i < |f.rows| && c in Renamed(TransactionNames, s.header) ::
              f.rows[i][c] == s.rows[i][IndexOf(Renamed(TransactionNames, s.header), c)]
  {
    var n := Normalized(TransactionNames, s);
    f := EnsureColumns(n, TransactionRequired);
    WithMissingColumnsFrom(n, TransactionRequired);
    AddedCells(s);
    KeptCells(s);
  }

  /** A column that is no renamed label is all missing after the additions. */
  lemma AddedCells(s: Sheet)
    requires Rectangular(s)
    ensures var f := WithMissingColumns(Normalized(TransactionNames, s), TransactionRequired);
            forall i, c | 0 <= i < |f.rows| && c in f.cols && c !in Renamed(TransactionNames, s.header) :: f.rows[i][c] == Missing
  {
    var n := Normalized(TransactionNames, s);
    var f := WithMissingColumns(n, TransactionRequired);
    forall i, c | 0 <= i < |f.rows| && c in f.cols && c !in Renamed(TransactionNames, s.header)
      ensures f.rows[i][c] == Missing
    {
      assert f.rows[i] in f.rows && n.rows[i] in n.rows;
    }
  }

  /** A renamed label keeps the cells of its first raw column through the added columns. */
  lemma KeptCells(s: Sheet)
    requires Rectangular(s)
    ensures var f := WithMissingColumns(Normalized(TransactionNames, s), TransactionRequired);
            forall i, c | 0 <= i < |f.rows| && c in Renamed(TransactionNames, s.header) ::
              f.rows[i][c] == s.rows[i][IndexOf(Renamed(TransactionNames, s.header), c)]
  {
    var f := WithMissingColumns(Normalized(TransactionNames, s), TransactionRequired);
    forall i, c | 0 <= i < |f.rows| && c in Renamed(TransactionNames, s.header)
      ensures f.rows[i][c] == s.rows[i][IndexOf(Renamed(TransactionNames, s.header), c)]
    {
      KeptCell(s, i, c);
    }
  }

  /** A renamed label keeps the cells of its first raw column through the added columns. */
  lemma KeptCell(s: Sheet, i: nat, c: ColName)
    requires Rectangular(s) && i < |s.rows| && c in Renamed(TransactionNames, s.header)
    ensures var n := Normalized(TransactionNames, s);
            WithMissingColumns(n, TransactionRequired).rows[i][c] == s.rows[i][IndexOf(Renamed(TransactionNames, s.header), c)]
  {
    var n := Normalized(TransactionNames, s);
    var k := IndexOf(Renamed(TransactionNames, s.header), c);
    assert c in n.cols && n.rows[i].Keys == ColSet(n.cols);
  }
}
