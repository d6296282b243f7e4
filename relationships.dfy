/** Cross-symbol relationships (`build_stock_relationships`): the day's most traded symbols form
    the universe, the symbols whose daily history loads are kept, and every pair of them whose
    return correlation reaches the threshold in absolute value is reported, labelled by its
    sign and sorted by absolute correlation, strongest first.

    Loading a symbol's history, aligning the return series on their common dates and the
    Pearson correlation itself are the caller's: `loads(s)` says whether `s`'s history loaded
    with a close column, `aligned` is the number of aligned return rows, and `corr(a, b)` is the
    matrix entry for `a` and `b` (None for NaN). */
module Relationships {
  import opened Tables
  import opened Sorting

  datatype Relation = Positive | Negative

  /** One output row: `Symbol_A`, `Symbol_B`, `Corr`, `Relation`. */
  datatype Pair = Pair(a: string, b: string, corr: real, relation: Relation)

  function Abs(x: real): real {
    if x < 0.0 then -x else x
  }

  /** The label of a correlation: Positive above zero, Negative otherwise (zero included). */
  function SignOf(c: real): Relation {
    if c > 0.0 then Positive else Negative
  }

  /** The output's sort key (`AbsCorr`). */
  function AbsKey(p: Pair): Option<real> {
    Some(Abs(p.corr))
  }

  /** Intraday volume as the universe is ranked by it: a missing or non-numeric volume is 0. */
  function VolumeKey(r: Row): Option<real> {
    Some(NumAt(r, "Volume").GetOr(0.0))
  }

  /** The rows in the order the universe is read: by volume, largest first, when the table has a
      `Volume` column, else as they are. */
  function ByVolume(f: Frame): (rows: seq<Row>)
    ensures multiset(rows) == multiset(f.rows)
    ensures "Volume" in f.cols ==> SortedOn(rows, VolumeKey, true)
    ensures "Volume" !in f.cols ==> rows == f.rows
  {
    if "Volume" in f.cols then SortOn(f.rows, VolumeKey, true) else f.rows
  }

  function SymbolTexts(rows: seq<Row>, fmt: real -> string): (s: seq<string>)
    ensures |s| == |rows| && forall i | 0 <= i < |rows| :: s[i] == AsText(At(rows[i], "Symbol"), fmt)
  {
    seq(|rows|, i requires 0 <= i < |rows| => AsText(At(rows[i], "Symbol"), fmt))
  }

  /** The analysis universe: the distinct symbol texts in volume order, cut to `topN`. */
  function Universe(f: Frame, fmt: real -> string, topN: int): seq<string> {
    Head(Dedup(SymbolTexts(ByVolume(f), fmt)), topN)
  }

  /** The universe has no repetitions, at most `topN` symbols, and only symbols of the table. */
  lemma UniverseBounds(f: Frame, fmt: real -> string, topN: int)
    ensures var u := Universe(f, fmt, topN);
            && Distinct(u)
            && (topN >= 0 ==> |u| <= topN)
            && forall s | s in u :: exists i | 0 <= i < |f.rows| :: AsText(At(f.rows[i], "Symbol"), fmt) == s
  {
    var rows := ByVolume(f);
    var d := Dedup(SymbolTexts(rows, fmt));
    var u := Universe(f, fmt, topN);
    assert forall k | 0 <= k < |u| :: u[k] == d[k];
    forall s | s in u ensures exists i | 0 <= i < |f.rows| :: AsText(At(f.rows[i], "Symbol"), fmt) == s {
      var p :| 0 <= p < |rows| && AsText(At(rows[p], "Symbol"), fmt) == s;
      assert rows[p] in multiset(f.rows);
      var i :| 0 <= i < |f.rows| && f.rows[i] == rows[p];
    }
  }

  /** The universe is the most traded symbols: when a row's symbol is left out, every symbol of
      the universe has a row traded at least as much. */
  lemma UniverseTopByVolume(f: Frame, fmt: real -> string, topN: int, i: nat)
    requires "Volume" in f.cols && i < |f.rows|
    requires AsText(At(f.rows[i], "Symbol"), fmt) !in Universe(f, fmt, topN)
    ensures forall s | s in Universe(f, fmt, topN) ::
              exists j | 0 <= j < |f.rows| :: AsText(At(f.rows[j], "Symbol"), fmt) == s
                                              && VolumeKey(f.rows[j]).value >= VolumeKey(f.rows[i]).value
  {
    var rows := ByVolume(f);
    assert Universe(f, fmt, topN) == Head(Dedup(SymbolTexts(rows, fmt)), topN);
    assert SortedOn(rows, VolumeKey, true);
    assert f.rows[i] in multiset(rows);
    var p :| 0 <= p < |rows| && rows[p] == f.rows[i];
    TopOfSorted(rows, fmt, topN, p);
    LiftToTable(rows, f.rows, Universe(f, fmt, topN), fmt, p, i);
  }

  /** What holds of a row's position in a permutation of the table holds in the table. */
  lemma LiftToTable(rows: seq<Row>, orig: seq<Row>, u: seq<string>, fmt: real -> string, p: nat, i: nat)
    requires multiset(rows) == multiset(orig) && p < |rows| && i < |orig| && rows[p] == orig[i]
    requires forall s | s in u ::
               exists q | 0 <= q < p :: AsText(At(rows[q], "Symbol"), fmt) == s
                                        && VolumeKey(rows[q]).value >= VolumeKey(rows[p]).value
    ensures forall s | s in u ::
              exists j | 0 <= j < |orig| :: AsText(At(orig[j], "Symbol"), fmt) == s
                                            && VolumeKey(orig[j]).value >= VolumeKey(orig[i]).value
  {
    forall s | s in u
      ensures exists j | 0 <= j < |orig| :: AsText(At(orig[j], "Symbol"), fmt) == s
                                            && VolumeKey(orig[j]).value >= VolumeKey(orig[i]).value
    {
      var q :| 0 <= q < p && AsText(At(rows[q], "Symbol"), fmt) == s && VolumeKey(rows[q]).value >= VolumeKey(rows[p]).value;
      assert rows[q] in multiset(orig);
      var j :| 0 <= j < |orig| && orig[j] == rows[q];
    }
  }

  /** In rows sorted by volume, each symbol of the universe shows up before any row whose symbol
      is not in it. */
  lemma TopOfSorted(rows: seq<Row>, fmt: real -> string, topN: int, p: nat)
    requires SortedOn(rows, VolumeKey, true) && p < |rows|
    requires AsText(At(rows[p], "Symbol"), fmt) !in Head(Dedup(SymbolTexts(rows, fmt)), topN)
    ensures forall s | s in Head(Dedup(SymbolTexts(rows, fmt)), topN) ::
              exists q | 0 <= q < p :: AsText(At(rows[q], "Symbol"), fmt) == s
                                       && VolumeKey(rows[q]).value >= VolumeKey(rows[p]).value
  {
    var texts := SymbolTexts(rows, fmt);
    var u := Head(Dedup(texts), topN);
    var ks := FirstWins(texts);
    EarlierFirstOccurrences(texts, topN, p);
    forall s | s in u
      ensures exists q | 0 <= q < p :: AsText(At(rows[q], "Symbol"), fmt) == s
                                       && VolumeKey(rows[q]).value >= VolumeKey(rows[p]).value
    {
      var k :| 0 <= k < |u| && u[k] == s;
      var q := ks[k];
      assert Precedes(VolumeKey(rows[q]), VolumeKey(rows[p]), true);
      assert texts[q] == s;
    }
  }

  /** A value outside the first n distinct values occurs, at `p`, after the first occurrence of
      each of them. */
  lemma EarlierFirstOccurrences<T>(s: seq<T>, n: int, p: nat)
    requires p < |s| && s[p] !in Head(Dedup(s), n)
    ensures var u := Head(Dedup(s), n);
            forall k | 0 <= k < |u| :: FirstWins(s)[k] < p && s[FirstWins(s)[k]] == u[k]
  {
    var d := Dedup(s);
    var ks := FirstWins(s);
    var u := Head(d, n);
    assert s[p] in s;
    assert s[p] in d;
    var m :| 0 <= m < |d| && d[m] == s[p];
    FirstOccurrenceAtMost(s, p, ks[m]);
    OutsidePrefix(d, |u|, m);
    assert forall k | 0 <= k < |u| :: u[k] == d[k];
  }

  /** The symbols of the universe whose history loads, in universe order (the loop of lines
      550-567 skips the others). */
  function Loaded(u: seq<string>, loads: string -> bool): seq<string> {
    if u == [] then []
    else
      var l := Loaded(u[..|u| - 1], loads);
      if loads(u[|u| - 1]) then l + [u[|u| - 1]] else l
  }

  /** The loaded symbols are exactly the universe's symbols that load, without repetitions, in
      universe order. */
  lemma {:induction false} LoadedSubsequence(u: seq<string>, loads: string -> bool)
    requires Distinct(u)
    ensures var l := Loaded(u, loads);
            && (forall s :: s in l <==> s in u && loads(s))
            && Distinct(l)
            && forall k, m | 0 <= k < m < |l| :: IndexOf(u, l[k]) < IndexOf(u, l[m])
  {
    if u != [] {
      var init := u[..|u| - 1];
      var last := u[|u| - 1];
      assert Distinct(init);
      LoadedSubsequence(init, loads);
      var l0 := Loaded(init, loads);
      assert u == init + [last];
      assert last !in init;
      forall s | s in init ensures IndexOf(u, s) == IndexOf(init, s) {
        IndexOfPrefix(u, |u| - 1, s);
      }
      DistinctIndex(u, |u| - 1);
    }
  }

  /** The first occurrence of a value is at or before any of its occurrences. */
  lemma FirstOccurrenceAtMost<T>(s: seq<T>, p: nat, q: nat)
    requires p < |s| && q < |s| && s[q] == s[p] && FirstAt(s, q)
    ensures q <= p
  {
  }

  /** An element outside the first n elements of a sequence sits at position n or later. */
  lemma OutsidePrefix<T>(d: seq<T>, n: nat, m: nat)
    requires n <= |d| && m < |d| && d[m] !in d[..n]
    ensures m >= n
  {
  }

  /** An element of a prefix has the same first index in the prefix as in the whole. */
  lemma IndexOfPrefix<T>(s: seq<T>, n: nat, x: T)
    requires n <= |s| && x in s[..n]
    ensures IndexOf(s, x) == IndexOf(s[..n], x)
  {
    var i := IndexOf(s[..n], x);
    assert s[i] == x;
    IndexOfAtMost(s, x, i);
    var q := IndexOf(s, x);
    assert s[..n][q] == x;
    IndexOfAtMost(s[..n], x, q);
  }

  /** Lines 550-567 as a loop: keep each universe symbol whose history loads. */
  method LoadedSymbols(u: seq<string>, loads: string -> bool) returns (l: seq<string>)
    ensures l == Loaded(u, loads)
  {
    l := [];
    for i := 0 to |u|
      invariant l == Loaded(u[..i], loads)
    {
      assert u[..i + 1][..i] == u[..i];
      if loads(u[i]) {
        l := l + [u[i]];
      }
    }
    assert u[..|u|] == u;
  }

  /** A reported entry of the correlation matrix: row `i`, column `j`, correlation `c`. */
  datatype Hit = Hit(i: nat, j: nat, c: real)

  /** The matrix entry is a number whose absolute value reaches the threshold (inclusive). */
  predicate Qualifies(syms: seq<string>, corr: (string, string) -> Option<real>, minAbs: real, h: Hit)
    requires h.i < |syms| && h.j < |syms|
  {
    corr(syms[h.i], syms[h.j]) == Some(h.c) && Abs(h.c) >= minAbs
  }

  /** Strictly earlier in the double loop's order: by row, then by column. */
  predicate Before(h: Hit, g: Hit) {
    h.i < g.i || (h.i == g.i && h.j < g.j)
  }

  /** The entry at (i, j) when it qualifies. */
  function HitAt(syms: seq<string>, corr: (string, string) -> Option<real>, minAbs: real, i: nat, j: nat): seq<Hit>
    requires i < j < |syms|
  {
    var c := corr(syms[i], syms[j]);
    if c.Some? && Abs(c.value) >= minAbs then [Hit(i, j, c.value)] else []
  }

  /** The qualifying entries of row `i` in columns i+1 .. j-1, in column order. */
  function RowHits(syms: seq<string>, corr: (string, string) -> Option<real>, minAbs: real, i: nat, j: nat): (hs: seq<Hit>)
    requires i < j <= |syms|
    ensures forall k | 0 <= k < |hs| :: hs[k].i == i && i < hs[k].j < j && Qualifies(syms, corr, minAbs, hs[k])
    ensures forall k, m | 0 <= k < m < |hs| :: hs[k].j < hs[m].j
    decreases j
  {
    if j == i + 1 then [] else RowHits(syms, corr, minAbs, i, j - 1) + HitAt(syms, corr, minAbs, i, j - 1)
  }

  /** The qualifying entries above the diagonal in rows 0 .. i-1, in the double loop's order. */
  function Hits(syms: seq<string>, corr: (string, string) -> Option<real>, minAbs: real, i: nat): (hs: seq<Hit>)
    requires i <= |syms|
    ensures forall k | 0 <= k < |hs| :: hs[k].i < i && hs[k].i < hs[k].j < |syms| && Qualifies(syms, corr, minAbs, hs[k])
    ensures forall k, m | 0 <= k < m < |hs| :: Before(hs[k], hs[m])
  {
    if i == 0 then [] else Hits(syms, corr, minAbs, i - 1) + RowHits(syms, corr, minAbs, i - 1, |syms|)
  }

  /** An element of either part is an element of the concatenation. */
  lemma InConcat<T>(x: T, a: seq<T>, b: seq<T>)
    requires x in a || x in b
    ensures x in a + b
  {
  }

  /** A qualifying entry of row `i` before column `j` is among the row's hits. */
  lemma {:induction false} RowHitReported(syms: seq<string>, corr: (string, string) -> Option<real>, minAbs: real,
                                          i: nat, m: nat, j: nat)
    requires i < m < j <= |syms| && corr(syms[i], syms[m]).Some? && Abs(corr(syms[i], syms[m]).value) >= minAbs
    ensures Hit(i, m, corr(syms[i], syms[m]).value) in RowHits(syms, corr, minAbs, i, j)
    decreases j
  {
    var h := Hit(i, m, corr(syms[i], syms[m]).value);
    var prev := RowHits(syms, corr, minAbs, i, j - 1);
    var last := HitAt(syms, corr, minAbs, i, j - 1);
    if m < j - 1 {
      RowHitReported(syms, corr, minAbs, i, m, j - 1);
    } else {
      assert last == [h];
    }
    InConcat(h, prev, last);
  }

  /** A qualifying entry above the diagonal in rows 0 .. i-1 is among the hits of those rows. */
  lemma {:induction false} HitInRows(syms: seq<string>, corr: (string, string) -> Option<real>, minAbs: real,
                                     r: nat, m: nat, i: nat)
    requires r < i <= |syms| && r < m < |syms|
    requires corr(syms[r], syms[m]).Some? && Abs(corr(syms[r], syms[m]).value) >= minAbs
    ensures Hit(r, m, corr(syms[r], syms[m]).value) in Hits(syms, corr, minAbs, i)
  {
    var h := Hit(r, m, corr(syms[r], syms[m]).value);
    var prev := Hits(syms, corr, minAbs, i - 1);
    var row := RowHits(syms, corr, minAbs, i - 1, |syms|);
    if r < i - 1 {
      HitInRows(syms, corr, minAbs, r, m, i - 1);
    } else {
      RowHitReported(syms, corr, minAbs, r, m, |syms|);
    }
    InConcat(h, prev, row);
  }

  /** Every qualifying entry above the diagonal is reported. */
  lemma HitReported(syms: seq<string>, corr: (string, string) -> Option<real>, minAbs: real, i: nat, j: nat)
    requires i < j < |syms| && corr(syms[i], syms[j]).Some? && Abs(corr(syms[i], syms[j]).value) >= minAbs
    ensures Hit(i, j, corr(syms[i], syms[j]).value) in Hits(syms, corr, minAbs, |syms|)
  {
    HitInRows(syms, corr, minAbs, i, j, |syms|);
  }

  function PairOf(syms: seq<string>, h: Hit): Pair
    requires h.i < |syms| && h.j < |syms|
  {
    Pair(syms[h.i], syms[h.j], h.c, SignOf(h.c))
  }

  /** The output rows of a list of matrix entries. */
  function PairsOf(syms: seq<string>, hs: seq<Hit>): seq<Pair>
    requires forall k | 0 <= k < |hs| :: hs[k].i < |syms| && hs[k].j < |syms|
  {
    seq(|hs|, k requires 0 <= k < |hs| => PairOf(syms, hs[k]))
  }

  lemma PairsOfAppend(syms: seq<string>, hs: seq<Hit>, gs: seq<Hit>)
    requires forall k | 0 <= k < |hs| :: hs[k].i < |syms| && hs[k].j < |syms|
    requires forall k | 0 <= k < |gs| :: gs[k].i < |syms| && gs[k].j < |syms|
    ensures PairsOf(syms, hs + gs) == PairsOf(syms, hs) + PairsOf(syms, gs)
  {
  }

  /** The rows the double loop emits, before sorting. */
  function PairList(syms: seq<string>, corr: (string, string) -> Option<real>, minAbs: real): seq<Pair> {
    PairsOf(syms, Hits(syms, corr, minAbs, |syms|))
  }

  /** Lines 581-592 as the source runs them: for every i < j, the entry of a and b is kept when it
      is a number whose absolute value reaches the threshold. */
  method CorrelatedPairs(syms: seq<string>, corr: (string, string) -> Option<real>, minAbs: real) returns (rows: seq<Pair>)
    ensures rows == PairList(syms, corr, minAbs)
  {
    rows := [];
    for i := 0 to |syms|
      invariant rows == PairsOf(syms, Hits(syms, corr, minAbs, i))
    {
      var row := RowPairs(syms, corr, minAbs, i);
      PairsOfAppend(syms, Hits(syms, corr, minAbs, i), RowHits(syms, corr, minAbs, i, |syms|));
      rows := rows + row;
    }
  }

  /** The inner loop of lines 583-592: row `i` of the matrix right of the diagonal. */
  method RowPairs(syms: seq<string>, corr: (string, string) -> Option<real>, minAbs: real, i: nat) returns (row: seq<Pair>)
    requires i < |syms|
    ensures row == PairsOf(syms, RowHits(syms, corr, minAbs, i, |syms|))
  {
    row := [];
    for j := i + 1 to |syms|
      invariant row == PairsOf(syms, RowHits(syms, corr, minAbs, i, j))
    {
      var a, b := syms[i], syms[j];
      var c := corr(a, b);
      if c.Some? && Abs(c.value) >= minAbs {
        PairsOfAppend(syms, RowHits(syms, corr, minAbs, i, j), [Hit(i, j, c.value)]);
        row := row + [Pair(a, b, c.value, SignOf(c.value))];
      }
    }
  }

  /** The whole operation. An empty intraday table, no loaded history, or fewer aligned return
      rows than `minDays` give no pairs; a non-empty table without `Symbol` fails. */
  function Relationships(f: Frame, fmt: real -> string, topN: int, loads: string -> bool, aligned: nat,
                         minDays: int, corr: (string, string) -> Option<real>, minAbs: real): (res: Result<seq<Pair>>)
    ensures res.Err? <==> |f.rows| > 0 && |f.cols| > 0 && "Symbol" !in f.cols
    ensures res.Ok? && aligned < minDays ==> res.value == []
    ensures res.Ok? && Loaded(Universe(f, fmt, topN), loads) == [] ==> res.value == []
    ensures res.Ok? ==> SortedOn(res.value, AbsKey, true)
  {
    if |f.rows| == 0 || |f.cols| == 0 then Ok([])
    else if "Symbol" !in f.cols then Err(MissingColumn("Symbol"))
    else
      var l := Loaded(Universe(f, fmt, topN), loads);
      if l == [] || aligned < minDays then Ok([])
      else Ok(SortOn(PairList(l, corr, minAbs), AbsKey, true))
  }

  /** Lines 539-603 with the loops as loops. */
  method BuildStockRelationships(f: Frame, fmt: real -> string, topN: int, loads: string -> bool, aligned: nat,
                                 minDays: int, corr: (string, string) -> Option<real>, minAbs: real)
    returns (res: Result<seq<Pair>>)
    ensures res == Relationships(f, fmt, topN, loads, aligned, minDays, corr, minAbs)
  {
    if |f.rows| == 0 || |f.cols| == 0 {
      return Ok([]);
    }
    if "Symbol" !in f.cols {
      return Err(MissingColumn("Symbol"));
    }
    var l := LoadedSymbols(Universe(f, fmt, topN), loads);
    if l == [] || aligned < minDays {
      return Ok([]);
    }
    var rows := CorrelatedPairs(l, corr, minAbs);
    return Ok(SortOn(rows, AbsKey, true));
  }

  /** Every emitted pair reads the matrix at its two symbols, reaches the threshold, is labelled
      by its sign, and names two distinct symbols, the first earlier in `syms`. */
  lemma PairListSound(syms: seq<string>, corr: (string, string) -> Option<real>, minAbs: real)
    requires Distinct(syms)
    ensures forall p | p in PairList(syms, corr, minAbs) ::
              && p.a in syms && p.b in syms && IndexOf(syms, p.a) < IndexOf(syms, p.b)
              && corr(p.a, p.b) == Some(p.corr) && Abs(p.corr) >= minAbs
              && (p.relation == Positive <==> p.corr > 0.0)
  {
    var hs := Hits(syms, corr, minAbs, |syms|);
    var ps := PairList(syms, corr, minAbs);
    forall p | p in ps
      ensures && p.a in syms && p.b in syms && IndexOf(syms, p.a) < IndexOf(syms, p.b)
              && corr(p.a, p.b) == Some(p.corr) && Abs(p.corr) >= minAbs
              && (p.relation == Positive <==> p.corr > 0.0)
    {
      var k :| 0 <= k < |ps| && ps[k] == p;
      var h := hs[k];
      DistinctIndex(syms, h.i);
      DistinctIndex(syms, h.j);
    }
  }

  /** In a sequence without repetitions, an element's first index is its index. */
  lemma DistinctIndex<T>(s: seq<T>, i: nat)
    requires Distinct(s) && i < |s|
    ensures IndexOf(s, s[i]) == i
  {
  }

  /** No two of the pairs name the same two symbols, in either order. */
  predicate SameSymbols(p: Pair, q: Pair) {
    (p.a == q.a && p.b == q.b) || (p.a == q.b && p.b == q.a)
  }

  /** The double loop visits each unordered pair of distinct symbols once. */
  lemma PairListUnordered(syms: seq<string>, corr: (string, string) -> Option<real>, minAbs: real)
    requires Distinct(syms)
    ensures var ps := PairList(syms, corr, minAbs);
            forall k, m | 0 <= k < m < |ps| :: !SameSymbols(ps[k], ps[m])
  {
    var hs := Hits(syms, corr, minAbs, |syms|);
    var ps := PairList(syms, corr, minAbs);
    forall k, m | 0 <= k < m < |ps| ensures !SameSymbols(ps[k], ps[m]) {
      assert Before(hs[k], hs[m]);
    }
  }

  /** Every qualifying pair of loaded symbols, the earlier one first, is in the output. */
  lemma RelationshipsComplete(f: Frame, fmt: real -> string, topN: int, loads: string -> bool, aligned: nat,
                              minDays: int, corr: (string, string) -> Option<real>, minAbs: real, i: nat, j: nat)
    requires "Symbol" in f.cols && aligned >= minDays
    requires var l := Loaded(Universe(f, fmt, topN), loads);
             && i < j < |l| && corr(l[i], l[j]).Some? && Abs(corr(l[i], l[j]).value) >= minAbs
    ensures var l := Loaded(Universe(f, fmt, topN), loads);
            var c := corr(l[i], l[j]).value;
            Pair(l[i], l[j], c, SignOf(c)) in Relationships(f, fmt, topN, loads, aligned, minDays, corr, minAbs).value
  {
    var l := Loaded(Universe(f, fmt, topN), loads);
    var ps := PairList(l, corr, minAbs);
    PairReported(l, corr, minAbs, i, j);
    assert |f.rows| > 0 && |f.cols| > 0 by {
      assert l != [];
    }
    var out := SortOn(ps, AbsKey, true);
    PermutationMembers(out, ps);
  }

  /** Every output pair joins two loaded symbols, the first earlier in the universe, with a
      correlation reaching the threshold and labelled by its sign; and no two output pairs name
      the same two symbols. */
  lemma RelationshipsSound(f: Frame, fmt: real -> string, topN: int, loads: string -> bool, aligned: nat,
                           minDays: int, corr: (string, string) -> Option<real>, minAbs: real)
    requires Relationships(f, fmt, topN, loads, aligned, minDays, corr, minAbs).Ok?
    ensures var u := Universe(f, fmt, topN);
            var out := Relationships(f, fmt, topN, loads, aligned, minDays, corr, minAbs).value;
            && (forall p | p in out ::
                  && p.a in u && p.b in u && IndexOf(u, p.a) < IndexOf(u, p.b) && loads(p.a) && loads(p.b)
                  && corr(p.a, p.b) == Some(p.corr) && Abs(p.corr) >= minAbs
                  && (p.relation == Positive <==> p.corr > 0.0))
            && forall k, m | 0 <= k < m < |out| :: !SameSymbols(out[k], out[m])
  {
    var u := Universe(f, fmt, topN);
    var out := Relationships(f, fmt, topN, loads, aligned, minDays, corr, minAbs).value;
    if out != [] {
      var l := Loaded(u, loads);
      var ps := PairList(l, corr, minAbs);
      assert out == SortOn(ps, AbsKey, true);
      UniverseBounds(f, fmt, topN);
      LoadedSubsequence(u, loads);
      PairListSound(l, corr, minAbs);
      PairListUnordered(l, corr, minAbs);
      PermutationMembers(out, ps);
      SoundInUniverse(u, l, ps, out, loads, corr, minAbs);
      UnorderedAfterSort(ps, out);
    }
  }

  /** The order of the loaded symbols is the universe's order. */
  lemma SoundInUniverse(u: seq<string>, l: seq<string>, ps: seq<Pair>, out: seq<Pair>, loads: string -> bool,
                        corr: (string, string) -> Option<real>, minAbs: real)
    requires Distinct(u) && l == Loaded(u, loads)
    requires forall s :: s in l <==> s in u && loads(s)
    requires forall k, m | 0 <= k < m < |l| :: IndexOf(u, l[k]) < IndexOf(u, l[m])
    requires forall p | p in ps ::
               && p.a in l && p.b in l && IndexOf(l, p.a) < IndexOf(l, p.b)
               && corr(p.a, p.b) == Some(p.corr) && Abs(p.corr) >= minAbs
               && (p.relation == Positive <==> p.corr > 0.0)
    requires forall p :: p in out <==> p in ps
    ensures forall p | p in out ::
              && p.a in u && p.b in u && IndexOf(u, p.a) < IndexOf(u, p.b) && loads(p.a) && loads(p.b)
              && corr(p.a, p.b) == Some(p.corr) && Abs(p.corr) >= minAbs
              && (p.relation == Positive <==> p.corr > 0.0)
  {
    forall p | p in out ensures p.a in u && p.b in u && IndexOf(u, p.a) < IndexOf(u, p.b) {
      var x, y := IndexOf(l, p.a), IndexOf(l, p.b);
      assert IndexOf(u, l[x]) < IndexOf(u, l[y]);
    }
  }

  /** Sorting keeps "no two pairs name the same two symbols". */
  lemma UnorderedAfterSort(ps: seq<Pair>, out: seq<Pair>)
    requires multiset(out) == multiset(ps)
    requires forall k, m | 0 <= k < m < |ps| :: !SameSymbols(ps[k], ps[m])
    ensures forall k, m | 0 <= k < m < |out| :: !SameSymbols(out[k], out[m])
  {
    assert Distinct(ps) by {
      forall k, m | 0 <= k < m < |ps| ensures ps[k] != ps[m] {
        assert !SameSymbols(ps[k], ps[m]);
      }
    }
    PermutationDistinct(out, ps);
    forall k, m | 0 <= k < m < |out| ensures !SameSymbols(out[k], out[m]) {
      assert out[k] in multiset(ps) && out[m] in multiset(ps);
      var k' :| 0 <= k' < |ps| && ps[k'] == out[k];
      var m' :| 0 <= m' < |ps| && ps[m'] == out[m];
      assert k' != m';
      if k' > m' {
        assert !SameSymbols(ps[m'], ps[k']);
      }
    }
  }

  /** A pair at exactly the threshold is reported (the comparison is inclusive). */
  lemma ThresholdInclusive(syms: seq<string>, corr: (string, string) -> Option<real>, minAbs: real, i: nat, j: nat)
    requires i < j < |syms| && corr(syms[i], syms[j]) == Some(minAbs) && minAbs >= 0.0
    ensures Pair(syms[i], syms[j], minAbs, SignOf(minAbs)) in PairList(syms, corr, minAbs)
  {
    PairReported(syms, corr, minAbs, i, j);
  }

  /** Every qualifying entry above the diagonal is emitted as a pair, the earlier symbol first. */
  lemma PairReported(syms: seq<string>, corr: (string, string) -> Option<real>, minAbs: real, i: nat, j: nat)
    requires i < j < |syms| && corr(syms[i], syms[j]).Some? && Abs(corr(syms[i], syms[j]).value) >= minAbs
    ensures var c := corr(syms[i], syms[j]).value;
            Pair(syms[i], syms[j], c, SignOf(c)) in PairList(syms, corr, minAbs)
  {
    var c := corr(syms[i], syms[j]).value;
    HitReported(syms, corr, minAbs, i, j);
    var hs := Hits(syms, corr, minAbs, |syms|);
    var k :| 0 <= k < |hs| && hs[k] == Hit(i, j, c);
    var ps := PairsOf(syms, hs);
    assert ps == PairList(syms, corr, minAbs);
    assert ps[k] == Pair(syms[i], syms[j], c, SignOf(c));
  }
}
