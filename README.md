# Equity signal pipeline: a verified model of its derivation core

This project models the derivation core of a market-signal tool for one exchange. The tool:

- reads the exchange's intraday snapshot, session-transaction and daily-bar exports;
- renames their Arabic column headers to canonical English labels;
- fills classical pivot, resistance and support levels;
- aggregates the session's transactions per symbol into buy and sell volumes and an
  Accumulation / Distribution / Normal label;
- joins the aggregates onto the snapshot;
- scores every symbol with a rule-based probability.

Four analyses read the scored table:

- support/resistance breakouts;
- short-horizon (T+0 / T+1) candidates;
- correlated pairs among the most traded symbols;
- a filter on a list of recommended symbols.

Tables are modelled as values: a `Frame` is a sequence of distinct column labels and a sequence of
rows. Each row is a map from label to `Cell`, which is `Missing` (pandas NaN), `Num` (a number,
as an exact real) or `Text`. A column the source reads but the table lacks is a failure,
`Err(MissingColumn(label))`, raised in the order the source reads its columns. pandas raises
`KeyError` for `df[c]`, and `AttributeError` when a method is called on what `df.get(c)` gives
for an absent `c`.

Each operation is written once as a function that states what it computes. Where the source
works in place or in loops, a method does the same step by step and is proved equal to that
function:

- `AddPivotLevels` with `WriteUnderMask`;
- `ApplyAiScore` with `AddTerm`, which updates an `array` in place;
- `NormalizeTransactions` and `EnsureColumns`;
- `LoadedSymbols`;
- `CorrelatedPairs` with `RowPairs`;
- `BuildStockRelationships`.

Modules, one file each:

| module | file | models |
|---|---|---|
| `Tables` | `tables.dfy` | cells, rows, frames, and the pandas selection steps the core uses |
| `Sorting` | `sorting.dfy` | `sort_values` with missing keys last |
| `Normalize` | `normalize.dfy` | the three column normalisers |
| `Pivot` | `pivot.dfy` | `add_pivot_levels` |
| `Transactions` | `transactions.dfy` | `aggregate_transactions` and `classify_behavior` |
| `Signals` | `signals.dfy` | the join and defaulting steps of `build_signals_for_day` |
| `Score` | `score.dfy` | `apply_ai_score` |
| `Breakouts` | `breakouts.dfy` | `find_sr_breakouts` |
| `Candidates` | `candidates.dfy` | `build_t0_t1_candidates` |
| `Relationships` | `relationships.dfy` | `build_stock_relationships` |
| `GroupPicks` | `grouppicks.dfy` | `filter_group_picks` |

Where the code and its documentation disagree, the model follows the code:

- **No buy records.** A symbol with volume but no buy record gets buy ratio 0 and the label
  Distribution. This includes a symbol none of whose records has a recognised side. It does not
  get a missing ratio or Normal (`Transactions.NoBuysIsDistribution`).
- **Pivot recompute condition.** The comment at `utils.py:352` says levels are recomputed where
  they are missing or all zero. The code tests only for missing, so a row whose five levels are
  all zero keeps them (`Pivot.ZeroLevelsKept`). A row with any one level present is never
  written: the policy is all or nothing.
- **Reference close.** It is `Prev. Closed` whenever that column exists, even where its cell is
  missing. `Last` is used only when the column is absent (`Pivot.PrevClosedColumnWins`).

## Model

| member | source | states |
|---|---|---|
| Tables.Dedup | utils.py:79-81 | `~duplicated()` / `unique()`: the result has no repetitions, contains every value of the input and nothing else, and each element is taken from the position of that value's first occurrence, in order |
| Tables.Head | utils.py:517 | `head(n)` / `[:n]`: a prefix of the input, of at most n elements when n >= 0, and the whole input when it is shorter than n |
| Tables.Where | utils.py:504 | a boolean mask selects exactly the positions of the rows it holds for, each once, in table order |
| Tables.Present | utils.py:515 | `[c for c in cols if c in df.columns]`: exactly the wanted labels the table has; when the wanted list has no repetitions, neither does the result, and its labels keep the wanted list's order |
| Tables.FirstAbsent | utils.py:461 | selecting `df[cols]` fails exactly when some wanted label is absent, and names an absent wanted label |
| Tables.WithMissingColumns | utils.py:110-112 | after adding the absent labels as all-missing columns, every required label is present, the original columns come first, no original cell changes and every added cell is missing |
| Tables.WithMissingColumnsAt | utils.py:329-338 | adding the level columns changes how no label reads in any row |
| Tables.WithMissingColumnsFrom | utils.py:110-112 | adding absent labels introduces no column other than those labels |
| Tables.EnsureColumns | utils.py:110-112 | the loop that adds each absent label in turn gives the table described above |
| Sorting.SortOn | utils.py:467-470 | `sort_values`: the result is a permutation of the input (same multiset of rows), ordered by the key in the chosen direction, rows with a missing key last |
| Normalize.Normalized | utils.py:77-81 | rename then drop repeated labels: every renamed label survives once, no other label appears, and each label's cells come from the first raw column renamed to it |
| Normalize.FirstColumnWins | utils.py:79-81 | a column whose new label no earlier column took supplies every cell under that label; later columns with that label are dropped |
| Normalize.UnmappedPassesThrough | utils.py:77 | a header the map does not mention keeps its label and its cells, unless an earlier column already took that label |
| Normalize.TwoLastPriceSpellings | utils.py:36-37 | an export carrying both spellings of the last price yields one `Last` column holding the first spelling's values |
| Normalize.TwoColumnsOneLabel | utils.py:81 | two columns renamed to the same label leave one column, with the first one's cell |
| Normalize.NormalizeIntraday | utils.py:28-83 | the snapshot reader's renaming: every renamed header survives once with its first column's cells, no other label appears, and either spelling of the last price yields a `Last` column |
| Normalize.NormalizeCase | utils.py:116-135 | the historical-bar reader's renaming: every renamed header survives once with its first column's cells, and no other label appears |
| Normalize.NormalizeTransactions | utils.py:86-113 | the transaction table always has `Symbol`, `Side`, `Volume` and `Turnover`; every renamed header is present with its first column's cells; no column other than a renamed header or one of those four appears; every added column is all missing |
| Pivot.Pivoted | utils.py:318-373 | fails exactly when `High`, `Low` or the reference close column is absent; otherwise keeps every row and the original columns first, and the five level columns are present |
| Pivot.AddPivotLevels | utils.py:318-373 | the step-by-step operation (checks, columns added, mask, then writing under the mask) gives exactly `Pivoted` |
| Pivot.WriteLevels | utils.py:350-371 | computing the mask and the levels and then writing them gives every row its `PivotRow` |
| Pivot.LevelMask | utils.py:350-365 | the mask holds exactly where High, Low and the reference close are numbers and all five levels are missing, and there the computed levels are the classical ones |
| Pivot.WriteUnderMask | utils.py:367-371 | the five column writes under the mask, done in place, write all five levels into the masked rows and leave every other row as it was |
| Pivot.PivotRowOutcome | utils.py:344-371 | per row: every non-level cell is unchanged; if the mask holds, the five levels are P, R1, R2, S1, S2 of that row's inputs; otherwise all five keep their cells |
| Pivot.ClassicalExample | utils.py:361-365 | H = 110, L = 90, C = 100 give P = 100, R1 = 110, R2 = 120, S1 = 90, S2 = 80 |
| Pivot.ClassicalLadder | utils.py:361-365 | with the close inside the day's range: S2 <= S1 <= P <= R1 <= R2, P lies in [L, H], R1 and S1 are the reflections of L and H about P, and R2 - S2 = 2(H - L) |
| Pivot.PrevClosedColumnWins | utils.py:344-347 | when `Prev. Closed` exists but is missing in a row, that row's levels are not computed, whatever its `Last` |
| Pivot.ZeroLevelsKept | utils.py:352-359 | a row whose five levels are all 0 keeps them |
| Transactions.Upper | utils.py:237 | `str.upper()`: same length, ASCII lower-case letters raised, every other character kept |
| Transactions.Records | utils.py:233-246 | one record per row, and no record is both a buy and a sell |
| Transactions.PresentSymbols | utils.py:248 | the grouping keys are exactly the present (non-missing) symbols of the records |
| Transactions.Classify | utils.py:267-274 | Accumulation iff the ratio exceeds 0.6, Distribution iff it is below 0.4, Normal iff it is missing or in [0.4, 0.6] |
| Transactions.Summary | utils.py:250-265 | the buy ratio exists iff the total volume is positive, and then ratio x total = buy volume; the label is the classification of the ratio |
| Transactions.Aggregated | utils.py:225-279 | a table with no rows or no columns gives the empty aggregate; otherwise it fails exactly when `Volume`, `Turnover`, `Side` or `Symbol` is absent, and the error names one of those four that is absent |
| Transactions.AggregatedRows | utils.py:248-278 | one row per present symbol: the rows' symbols are distinct and not missing, every present symbol of the table has a row, every row's symbol occurs in the table, and each row is that symbol's summary |
| Transactions.SideTokensDecide | utils.py:237-240 | when some record's side is a buy token, buy and sell are decided by the side tokens B/BUY and S/SELL in any letter case |
| Transactions.DirectionFallback | utils.py:243-246 | with no buy token anywhere and a `Direction` column, a record is a buy iff its direction is a positive number and a sell iff it is a negative number |
| Transactions.NoBuyWithoutDirection | utils.py:239-246 | with no buy token and no `Direction` column, no record is a buy, and a record is a sell exactly when its side token is S or SELL |
| Transactions.VolumeSplit | utils.py:250-253 | a symbol's buy, sell and unclassified volumes add up to its total volume |
| Transactions.BuyRatioBounds | utils.py:262-265 | with non-negative volumes the buy ratio lies in [0, 1] |
| Transactions.NoBuysIsDistribution | utils.py:252-274 | a symbol with volume but no buy record of its own has buy ratio 0 and is labelled Distribution, whatever other symbols' records are |
| Transactions.ClassifyMonotone | utils.py:267-274 | a larger buy ratio never gives a label further toward Distribution |
| Transactions.AggregatedTotals | utils.py:248-260 | conservation: each summed column, added over the aggregate rows, equals the same quantity over the records that have a symbol |
| Signals.Joined | utils.py:386 | the left join fails exactly when the snapshot has no `Symbol`; otherwise it keeps every snapshot row in order and appends the six aggregate columns |
| Signals.JoinKeepsIntradayRows | utils.py:386 | every snapshot cell survives the join and the defaulting unchanged |
| Signals.JoinMatches | utils.py:386 | a row whose symbol has an aggregate carries that aggregate's cells; a row with no matching aggregate has every aggregate column missing |
| Signals.AggregatesAreKeyed | utils.py:248 | the aggregation delivers what the join relies on: no aggregate row has a missing symbol, and no symbol has two rows |
| Signals.WithCashDefaults | utils.py:389-392 | existing columns and cells are kept; an absent cash-in turnover becomes the total turnover (0 when missing), and an absent cash-out turnover becomes 0 |
| Signals.SignalTable | utils.py:380-394 | fails exactly when the snapshot has no `Symbol`; otherwise one row per snapshot row, snapshot columns first, with every aggregate and cash column present |
| Signals.DaySignals | utils.py:380-394 | the day's table fails exactly when the aggregation fails (that error comes first) or the snapshot has no `Symbol`; otherwise it is the signal table over keyed aggregates, and a day without transactions joins against no aggregates |
| Signals.CashDefaults | utils.py:388-392 | without the export's own cash columns, the cash-in turnover equals the joined total turnover with missing read as 0, and the cash-out turnover is 0 |
| Score.Clip | utils.py:433 | `clip(lo, hi)`: the result lies in [lo, hi], equals x inside, and equals the nearer bound outside |
| Score.Score | utils.py:413-433 | every score lies in [0.05, 0.95] |
| Score.Scored | utils.py:408-435 | a table with `AI_Prob` is returned unchanged; otherwise `AI_Prob` is appended holding each row's score, and no other cell changes |
| Score.ApplyAiScore | utils.py:401-435 | starting at 0.5, adding each present term column in place and then clipping gives exactly `Scored` |
| Score.AddTerm | utils.py:418-430 | one term added, in place, to every row's running score, and to nothing else |
| Score.ScoredIdempotent | utils.py:410-411 | scoring twice equals scoring once |
| Score.ScoredBounds | utils.py:433 | every written score lies in [0.05, 0.95] |
| Score.RisingAccumulationExample | utils.py:416-430 | a rising price, buy ratio 0.8 and Accumulation score 0.74 |
| Score.UnitRatioUnclipped | utils.py:413-433 | for a buy ratio in [0, 1] or none, the unclipped score lies in [0.20, 0.80], so the clip to [0.05, 0.95] leaves it unchanged |
| Score.ExtremesClipped | utils.py:421-433 | extreme buy ratios saturate at 0.95 and at 0.05 |
| Score.NoEvidenceNeutral | utils.py:413-430 | a row with no usable input scores exactly 0.5 |
| Score.ScoreMonotoneInRatio | utils.py:421-423 | raising the buy ratio, all else equal, never lowers the score |
| Score.ScoreMonotoneInChange | utils.py:416-418 | raising the price change, all else equal, never lowers the score |
| Breakouts.BreakoutSet | utils.py:461-470 | a set is a permutation of the shown columns of the rows breaking the level, ordered by `% Change`, descending for resistances and ascending for supports, missing changes last |
| Breakouts.Breakouts | utils.py:442-471 | succeeds exactly when `High`, `Low` and the five shown input columns are present, so the four sets are built even when no row breaks |
| Breakouts.ShownColumns | utils.py:457-464 | after the pivot step a shown column is absent exactly when the input table lacks it |
| Breakouts.SetsOfPivoted | utils.py:449-471 | each of the four sets is built from the pivoted table's rows |
| Breakouts.BreakoutSetSound | utils.py:461-464 | every element of a set is the shown columns of a row that breaks that level |
| Breakouts.BreakoutSetComplete | utils.py:461-464 | every row that breaks the level appears in its set |
| Breakouts.BoundaryBreaks | utils.py:461-464 | a price exactly at a level breaks it, for resistances and supports alike |
| Breakouts.NoPriceNoBreak | utils.py:451-464 | a row without a numeric price or level breaks nothing |
| Candidates.Screen | utils.py:503-511 | every candidate is the candidate row (range and score written) of a row passing both median screens, every such row yields its candidate, and there are no more candidates than rows |
| Candidates.T0T1Candidates | utils.py:478-518 | fails exactly when `Last` (only if the range is computed), `Volume`, `AI_Prob` or `buy_ratio` is absent; otherwise shows only the listed columns |
| Candidates.ResultRows | utils.py:513-518 | the result rows are the ranked candidates cut to the shown columns, and the score column is always shown |
| Candidates.RankedBoundedAndSorted | utils.py:517 | at most `top_n` candidates, each scored, in non-increasing score order |
| Candidates.RankedFromScreened | utils.py:503-511 | each candidate is a row that passes both median screens, carrying its range and the score 100 * AI_Prob + 3 * range + 50 * (buy_ratio - 0.5) |
| Candidates.TopDominates | utils.py:517 | a screened row left out of the result scores no higher than every candidate kept |
| Candidates.ZeroLastExcluded | utils.py:492-495 | without a `Range` column, a row whose last price is 0 has no range and is never a candidate |
| Relationships.ByVolume | utils.py:543-545 | with a `Volume` column the rows are a permutation of the table's rows sorted by volume (missing read as 0), largest first; without one they are the table's rows as they are |
| Relationships.UniverseBounds | utils.py:546-547 | the universe has no repetitions, at most `top_n` symbols, and only symbols of the table |
| Relationships.UniverseTopByVolume | utils.py:543-547 | the universe is the most traded symbols: when a row's symbol is left out, every universe symbol has a row traded at least as much |
| Relationships.LoadedSubsequence | utils.py:549-568 | the loaded symbols are exactly the universe symbols whose history loads, without repetitions, in universe order |
| Relationships.LoadedSymbols | utils.py:549-568 | the loading loop keeps exactly those symbols |
| Relationships.CorrelatedPairs | utils.py:581-592 | the double loop emits exactly the pair list of the qualifying matrix entries above the diagonal, in loop order |
| Relationships.RowPairs | utils.py:584-592 | the inner loop emits row i's qualifying entries right of the diagonal |
| Relationships.Relationships | utils.py:539-603 | fails exactly when a non-empty table lacks `Symbol`; too few aligned rows or no loaded symbol give no pairs; the output is ordered by absolute correlation, strongest first |
| Relationships.BuildStockRelationships | utils.py:539-603 | the operation with its loops gives exactly `Relationships` |
| Relationships.PairListSound | utils.py:581-592 | every emitted pair reads the matrix at its two symbols, reaches the threshold, is labelled Positive iff its correlation is positive, and puts the earlier symbol first |
| Relationships.PairListUnordered | utils.py:583-584 | no two emitted pairs name the same two symbols, in either order |
| Relationships.PairReported | utils.py:583-592 | every qualifying matrix entry above the diagonal is emitted as a pair |
| Relationships.ThresholdInclusive | utils.py:590 | a correlation exactly at the threshold is reported |
| Relationships.RelationshipsComplete | utils.py:570-603 | every qualifying pair of loaded symbols, the earlier one first, is in the output |
| Relationships.RelationshipsSound | utils.py:539-603 | every output pair joins two loaded universe symbols in universe order, reaches the threshold and is labelled by its sign; no two output pairs name the same two symbols |
| Relationships.UnorderedAfterSort | utils.py:597-599 | sorting keeps "no two pairs name the same two symbols" |
| GroupPicks.Shown | utils.py:615-625 | every requested row, prepared and cut to the shown columns, has exactly the shown columns |
| GroupPicks.ShownColsFacts | utils.py:620-625 | the shown columns are distinct shown labels, and `Symbol` and `AI_Prob` are among them |
| GroupPicks.GroupPicks | utils.py:610-628 | fails exactly when `Symbol` is absent; otherwise a well-formed table of shown columns, including `Symbol` and `AI_Prob`, whose rows are a permutation of the requested rows ordered by score, highest first |
| GroupPicks.GroupPicksSound | utils.py:616-618 | every shown row comes from a table row whose symbol text is in the list, and carries that symbol as text |
| GroupPicks.GroupPicksComplete | utils.py:616-618 | every table row whose symbol text is in the list is shown |
| GroupPicks.DuplicatesIrrelevant | utils.py:617 | only membership in the list matters: repeating or reordering symbols gives the same result |
| GroupPicks.NoMatchesEmpty | utils.py:617-618 | a list that names no symbol of the table gives an empty result, not a failure |
| GroupPicks.ProbabilityColumn | utils.py:620-621 | without a score column every shown row carries 0.5; with one, each shown row carries the score of a requested row |

## Left out

- File reading, encodings, sheet parsing and the `load_*` readers (`utils.py:144-222`) are not modelled. Their effect on the core is that a table arrives as a `Sheet` of header labels and parsed cells.
- `pd.to_numeric(errors="coerce")` on raw strings is not modelled: cells arrive parsed, and a text cell reads as missing wherever the source coerces.
- Day-first date parsing in `normalize_case_columns` is not modelled; its renaming and de-duplication are.
- `compute_basic_technicals` and the presentation layer (`app.py`) are outside the core and are not modelled.
- Floating point is modelled as exact reals, so rounding in the score, the levels and the ratios is not captured.
- `str()` of a float is a caller-supplied `fmt`. `str.upper()` is modelled on ASCII letters only. A missing cell's text is `"nan"`.
- Sorting.SortOn: pandas' default sort is not stable. The contract fixes only the key order and that the result is a permutation, not how ties are broken. The insertion sort used happens to keep ties in input order.
- Transactions.Aggregated: `groupby` orders its output by symbol; the model lists symbols in order of first appearance. Contents are exact; row order is not the source's.
- Signals.Joined: requires that the snapshot has none of the aggregate columns, so pandas' `_x`/`_y` suffixing of clashing labels is not modelled. Checks that merge key types agree are not modelled either.
- Signals.SignalTable: the same restriction as `Signals.Joined`.
- Candidates.Screen: the contract states which rows become candidates, not their order or how often a repeated row appears. The definition keeps table order, one candidate per passing row, and `Ranked` re-sorts by score.
- Candidates.T0T1Candidates: the volume and range medians (`quantile(0.5)`) are parameters, because pandas' quantile interpolation is not modelled. The mask's comparisons with them are modelled.
- Relationships.Relationships: three things are parameters: whether a symbol's history loads with a close column, the number of aligned return rows, and the correlation matrix entries. Loading files, `pct_change`, the inner join on dates and the Pearson correlation are not modelled.
- GroupPicks.GroupPicks: rows are cut to the shown columns before sorting rather than after. This gives the same rows, because the sort key is shown. A non-numeric `AI_Prob` sorts as missing.
- An empty grouping result's column list (the empty aggregate table's header) is not modelled: the model returns an empty sequence of aggregate rows.
