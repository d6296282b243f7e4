/** Tables as the signal pipeline sees them: ordered column labels and rows of cells.
    A pandas NaN (or None) is the cell `Missing`; numbers are exact reals. */
module Tables {

  datatype Option<T> = None | Some(value: T) {
    /** pandas `fillna(d)` on one value. */
    function GetOr(default: T): T {
      if Some? then value else default
    }
  }

  /** The one failure the core can raise on a well-formed table: a column it needs is absent. */
  datatype Error = MissingColumn(name: ColName)

  datatype Result<T> = Ok(value: T) | Err(error: Error)

  datatype Cell = Missing | Num(x: real) | Text(s: string)

  type ColName = string

  type Row = map<ColName, Cell>

  /** A table: its column labels, in order, and its rows. */
  datatype Frame = Frame(cols: seq<ColName>, rows: seq<Row>)

  predicate Distinct<T(==)>(s: seq<T>) {
    forall i, j | 0 <= i < j < |s| :: s[i] != s[j]
  }

  function ColSet(cols: seq<ColName>): (r: set<ColName>)
    ensures forall c :: c in r <==> c in cols
  {
    set c | c in cols
  }

  /** Column labels are unique and every row has exactly the table's columns. */
  predicate WellFormed(f: Frame) {
    Distinct(f.cols) && forall i | 0 <= i < |f.rows| :: f.rows[i].Keys == ColSet(f.cols)
  }

  /** The cell of `r` under `c`; a column the row lacks reads as missing. */
  function At(r: Row, c: ColName): Cell {
    if c in r then r[c] else Missing
  }

  /** `pd.to_numeric(errors="coerce")` on an already parsed cell: text becomes missing. */
  function Numeric(c: Cell): Option<real> {
    if c.Num? then Some(c.x) else None
  }

  function NumAt(r: Row, c: ColName): Option<real> {
    Numeric(At(r, c))
  }

  /** Python's `str(x)` of a cell, as `astype(str)` does it (pandas 2.x: NaN becomes "nan");
      the spelling of a float is the caller's `fmt`. */
  function AsText(c: Cell, fmt: real -> string): string {
    match c
    case Missing => "nan"
    case Num(x) => fmt(x)
    case Text(s) => s
  }

  /** `xs[:n]` and `DataFrame.head(n)`: the first n elements, or all but the last -n when n < 0. */
  function Head<T>(xs: seq<T>, n: int): (h: seq<T>)
    ensures |h| <= |xs| && h == xs[..|h|]
    ensures n >= 0 ==> |h| <= n && (|h| < n ==> h == xs)
  {
    if n >= 0 then
      (if n < |xs| then xs[..n] else xs)
    else
      (if |xs| + n > 0 then xs[..|xs| + n] else [])
  }

  /** The index of the first occurrence of `x` in `s`. */
  function IndexOf<T(==)>(s: seq<T>, x: T): (i: nat)
    requires x in s
    ensures i < |s| && s[i] == x && x !in s[..i]
  {
    if s[0] == x then 0 else
      var i := IndexOf(s[1..], x);
      assert s[1..][..i] == s[1..i + 1];
      1 + i
  }

  /** No element before position `i` equals the one at `i`. */
  predicate FirstAt<T(==)>(s: seq<T>, i: nat)
    requires i < |s|
  {
    forall j | 0 <= j < i :: s[j] != s[i]
  }

  /** The positions of first occurrences, in order: which of several equal labels pandas keeps
      with `~duplicated()`, and which values `unique()` returns. */
  function FirstWins<T(==)>(s: seq<T>): (ks: seq<nat>)
    ensures forall k | 0 <= k < |ks| :: ks[k] < |s| && FirstAt(s, ks[k])
    ensures forall i | 0 <= i < |s| && FirstAt(s, i) :: i in ks
    ensures forall k, l | 0 <= k < l < |ks| :: ks[k] < ks[l]
  {
    if |s| == 0 then [] else
      var init := s[..|s| - 1];
      var ks := FirstWins(init);
      assert forall i | 0 <= i < |init| :: FirstAt(init, i) == FirstAt(s, i);
      if FirstAt(s, |s| - 1) then ks + [|s| - 1] else ks
  }

  /** The values of `s` with later repetitions dropped, first occurrences kept in order. */
  function Dedup<T(==)>(s: seq<T>): (r: seq<T>)
    ensures |r| == |FirstWins(s)| && forall k | 0 <= k < |r| :: r[k] == s[FirstWins(s)[k]]
    ensures Distinct(r)
    ensures forall x | x in s :: x in r
    ensures forall k | 0 <= k < |r| :: r[k] in s
  {
    var ks := FirstWins(s);
    var r := seq(|ks|, k requires 0 <= k < |ks| => s[ks[k]]);
    forall k, l | 0 <= k < l < |r| ensures r[k] != r[l] {
      assert FirstAt(s, ks[l]);
    }
    forall x | x in s ensures x in r {
      var i := IndexOf(s, x);
      assert FirstAt(s, i) by {
        forall j | 0 <= j < i ensures s[j] != s[i] {
          assert s[..i][j] == s[j];
        }
      }
      var k :| 0 <= k < |ks| && ks[k] == i;
      assert r[k] == x;
    }
    r
  }

  /** The positions of the rows a boolean mask selects, in increasing order (`df[mask]`). */
  function Where(rows: seq<Row>, mask: Row -> bool): (ks: seq<nat>)
    ensures forall k | 0 <= k < |ks| :: ks[k] < |rows| && mask(rows[ks[k]])
    ensures forall i | 0 <= i < |rows| && mask(rows[i]) :: i in ks
    ensures forall k, l | 0 <= k < l < |ks| :: ks[k] < ks[l]
  {
    if rows == [] then []
    else
      var ks := Where(rows[..|rows| - 1], mask);
      assert forall i | 0 <= i < |rows| - 1 :: rows[..|rows| - 1][i] == rows[i];
      if mask(rows[|rows| - 1]) then ks + [|rows| - 1] else ks
  }

  /** The labels of `want` that `have` contains, in the order of `want`
      (the source's `[c for c in cols if c in df.columns]`). */
  function Present(want: seq<ColName>, have: seq<ColName>): (r: seq<ColName>)
    ensures forall c :: c in r <==> c in want && c in have
    ensures Distinct(want) ==> Distinct(r)
    ensures Distinct(want) ==> forall i, j | 0 <= i < j < |r| :: IndexOf(want, r[i]) < IndexOf(want, r[j])
  {
    if want == [] then []
    else
      var rest := Present(want[1..], have);
      IndexOfTail(want, rest);
      if want[0] in have then [want[0]] + rest else rest
  }

  /** The first index of a value is at or before any index holding it. */
  lemma IndexOfAtMost<T>(s: seq<T>, x: T, p: nat)
    requires p < |s| && s[p] == x
    ensures IndexOf(s, x) <= p
  {
  }

  /** Past the head, a label's first position in `s` is one more than in `s[1..]`. */
  lemma IndexOfTail<T>(s: seq<T>, xs: seq<T>)
    requires s != [] && forall x | x in xs :: x in s[1..]
    ensures forall x | x in xs && x != s[0] :: IndexOf(s, x) == 1 + IndexOf(s[1..], x)
  {
  }

  /** The first label of `want` that `have` lacks, if any. */
  function FirstAbsent(want: seq<ColName>, have: seq<ColName>): (r: Option<ColName>)
    ensures r.None? <==> forall c | c in want :: c in have
    ensures r.Some? ==> r.value in want && r.value !in have
  {
    if want == [] then None
    else if want[0] !in have then Some(want[0])
    else FirstAbsent(want[1..], have)
  }

  /** `df[cols]`: the row restricted to the given labels. */
  function Project(r: Row, cols: seq<ColName>): (p: Row)
    ensures p.Keys == r.Keys * ColSet(cols)
    ensures forall c | c in p :: p[c] == r[c]
  {
    map c | c in r.Keys * ColSet(cols) :: r[c]
  }

  /** `df[c] = vals`: a new last column (the label must be new). */
  function WithColumn(f: Frame, c: ColName, vals: seq<Cell>): (g: Frame)
    requires c !in f.cols && |vals| == |f.rows|
    requires WellFormed(f)
    ensures WellFormed(g) && g.cols == f.cols + [c] && |g.rows| == |f.rows|
    ensures forall i | 0 <= i < |g.rows| :: g.rows[i] == f.rows[i][c := vals[i]]
  {
    var g := Frame(f.cols + [c], seq(|f.rows|, i requires 0 <= i < |f.rows| => f.rows[i][c := vals[i]]));
    assert ColSet(g.cols) == ColSet(f.cols) + {c};
    g
  }

  /** The table with every label of `names` it lacks appended, in order, as an all-missing
      column (`if c not in df.columns: df[c] = np.nan` for each c). */
  /** Every column after the additions is an old column or one of the names added. */
  lemma WithMissingColumnsFrom(f: Frame, names: seq<ColName>)
    requires WellFormed(f)
    ensures forall c | c in WithMissingColumns(f, names).cols :: c in f.cols || c in names
  {
    var g := WithMissingColumns(f, names);
    forall c | c in g.cols ensures c in f.cols || c in names {
      var j :| 0 <= j < |g.cols| && g.cols[j] == c;
      if j < |f.cols| {
        assert g.cols[..|f.cols|][j] == c;
      } else {
        assert g.cols[|f.cols|..][j - |f.cols|] == c;
      }
    }
  }

  function WithMissingColumns(f: Frame, names: seq<ColName>): (g: Frame)
    requires WellFormed(f)
    ensures WellFormed(g) && |g.rows| == |f.rows|
    ensures forall c | c in names :: c in g.cols
    ensures |g.cols| >= |f.cols| && g.cols[..|f.cols|] == f.cols
    ensures forall c | c in g.cols[|f.cols|..] :: c in names
    ensures forall i | 0 <= i < |f.rows| ::
              forall c | c in f.rows[i] :: c in g.rows[i] && g.rows[i][c] == f.rows[i][c]
    ensures forall i | 0 <= i < |g.rows| ::
              forall c | c in g.rows[i] && c !in f.rows[i] :: g.rows[i][c] == Missing
  {
    if names == [] then f
    else
      var g := WithMissingColumns(f, names[..|names| - 1]);
      var c := names[|names| - 1];
      if c in g.cols then g
      else
        MissingColumnStep(f, g, c);
        WithColumn(g, c, seq(|g.rows|, _ => Missing))
  }

  /** Appending one more all-missing column keeps the original columns first and their cells. */
  lemma MissingColumnStep(f: Frame, g: Frame, c: ColName)
    requires WellFormed(f) && WellFormed(g) && |g.rows| == |f.rows| && c !in g.cols
    requires |g.cols| >= |f.cols| && g.cols[..|f.cols|] == f.cols
    requires forall i | 0 <= i < |f.rows| :: forall d | d in f.rows[i] :: d in g.rows[i] && g.rows[i][d] == f.rows[i][d]
    requires forall i | 0 <= i < |g.rows| :: forall d | d in g.rows[i] && d !in f.rows[i] :: g.rows[i][d] == Missing
    ensures var h := WithColumn(g, c, seq(|g.rows|, _ => Missing));
            && h.cols[|f.cols|..] == g.cols[|f.cols|..] + [c]
            && h.cols[..|f.cols|] == f.cols
            && (forall i | 0 <= i < |f.rows| :: forall d | d in f.rows[i] :: d in h.rows[i] && h.rows[i][d] == f.rows[i][d])
            && (forall i | 0 <= i < |h.rows| :: forall d | d in h.rows[i] && d !in f.rows[i] :: h.rows[i][d] == Missing)
  {
    var h := WithColumn(g, c, seq(|g.rows|, _ => Missing));
    assert h.cols == g.cols + [c];
    assert forall i | 0 <= i < |f.rows| :: c !in f.rows[i] by {
      forall i | 0 <= i < |f.rows| ensures c !in f.rows[i] {
        assert f.cols == g.cols[..|f.cols|];
      }
    }
  }

  /** Adding all-missing columns changes no cell: every label reads as it did before. */
  lemma WithMissingColumnsAt(f: Frame, names: seq<ColName>, i: nat, c: ColName)
    requires WellFormed(f) && i < |f.rows|
    ensures At(WithMissingColumns(f, names).rows[i], c) == At(f.rows[i], c)
  {
  }

  /** The source's loop over required labels, adding each absent one as a missing column. */
  method EnsureColumns(f: Frame, names: seq<ColName>) returns (g: Frame)
    requires WellFormed(f)
    ensures g == WithMissingColumns(f, names)
  {
    g := f;
    for k := 0 to |names|
      invariant WellFormed(g)
      invariant g == WithMissingColumns(f, names[..k])
    {
      assert names[..k + 1][..k] == names[..k];
      if names[k] !in g.cols {
        g := WithColumn(g, names[k], seq(|g.rows|, _ => Missing));
      }
    }
    assert names[..|names|] == names;
  }
}
