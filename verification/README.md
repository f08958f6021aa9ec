# University search: filter-and-paginate model

A Dafny model of the query logic behind two Streamlit pages that browse
university programmes stored in a Google spreadsheet:

- `universities.py` — the main search page. It loads every worksheet,
  concatenates them and coerces `Tuition Price` to numbers. `apply_filters`
  then narrows the rows with five category select boxes (`'All'` means "no
  constraint"), an inclusive tuition range that always drops rows without a
  tuition, and an optional case-insensitive search in `University Name` or
  `Speciality`. The result is shown 24 cards per page.
- `pages/universitesall.py` — the all-sheets page. `load_filtered_data`
  coerces both price columns and applies the category filters (including
  `Spec`) and the tuition range to each worksheet separately. It
  concatenates the filtered worksheets in order and caps the result at
  10,000 rows with a `random_state=42` sample. The result is shown 16 cards
  per page.

The modules:

- `Table` (`table.dfy`) holds the data: cells (`Number`, `Text`, or `Null`
  for pandas' NaN), rows, worksheets and frames. It also holds numeric
  coercion, and the rule that a worksheet with no records has no columns at
  all, so indexing any column of it raises `KeyError`. A record holds only
  its sheet's header keys, so a row is missing (NaN) under every other
  column, as `pd.concat` leaves it.
- `Filter` (`filter.dfy`) holds the mask chain. `Narrow` applies one
  `df = df[mask]` step at a time. `Keep` is a single pass with the
  conjunction of all masks. `NarrowChecked` adds the `KeyError` raised for a
  missing column. The lemmas prove that `Narrow` and `Keep` agree and that
  `Keep` keeps exactly the passing rows, in input order. They also prove
  that clause order does not matter, that filtering twice changes nothing,
  and that filtering distributes over concatenation.
- `Universities` and `UniversitesAll` model the two pages' filter arguments.
  Each has a field-by-field `Wanted` predicate as its reference, and the
  lemmas tie the mask chain to it.
- `Sampling` (`sampling.dfy`) models the 10,000-row cap and its fixed-seed
  sample.
- `Pagination` (`pagination.dfy`) models the page count, the card-grid
  loops, and the Previous/Next page counter with its reset on submit or on a
  changed search text. The counter is never clamped to the page count: after
  a new filter the page may point past the end, and the grid then shows
  nothing.
- `Options` (`options.dfy`) builds the select-box choices.
- `Text` (`text.dfy`) has case folding, substring search and Python's
  string order.
- `Numeric` (`numeric.dfy`) parses and prints decimal integers.
- `Wrappers` (`wrappers.dfy`) has `Option` and `Result`.

The source does not deduplicate: a programme listed on two worksheets
appears twice. The model keeps both copies.

## Model

| member | source | states |
|---|---|---|
| `Numeric.ParseInt` | universities.py:36 | text reads as a number exactly when it is an optional `+` or `-` followed by one or more digits; the value is the digits' decimal value, negated after a `-` |
| `Numeric.ParseShowRoundTrip` | universities.py:36 | every integer written in decimal reads back as itself |
| `Numeric.NonNumericText` | pages/universitesall.py:32-33 | text that holds any character other than a digit or a sign is unparsable and reads as missing |
| `Table.ToNumeric` | universities.py:36 | `to_numeric(errors='coerce')` never leaves text behind; numbers and NaN stay; text becomes a number exactly when it parses, and then that number |
| `Table.ToNumericIdempotent` | pages/universitesall.py:32 | coercing an already coerced cell changes nothing |
| `Table.ToNumericReadsShownNumbers` | pages/universitesall.py:32-33 | a price stored as the text of an integer coerces to that integer instead of raising |
| `Table.CoerceTuition` | universities.py:36 | coercion keeps the row count; each tuition becomes its `to_numeric` value (NaN stays NaN, parsable text becomes its number, other text NaN), so none is text; a row differs from its source row only in tuition |
| `Table.CoercePrices` | pages/universitesall.py:32-33 | both price columns become their `to_numeric` values (NaN stays NaN, parsable text becomes its number, other text NaN) and hold no text; every other field is unchanged |
| `Table.CoercePricesAppend` | pages/universitesall.py:27-33 | coercing sheet by sheet equals coercing the concatenated rows |
| `Table.SheetFrame` | pages/universitesall.py:28-29 | a sheet with records has exactly its header as columns, one with none has no columns; each row keeps its header cells and is missing everywhere else |
| `Table.Restrict` | pages/universitesall.py:28-29 | a record keeps its cells under the given columns and is missing under every other column |
| `Table.CoerceTuitionWellFormed` | universities.py:33-36 | coercing the tuition column of a frame that has it leaves every cell under a missing column NaN |
| `Table.MissingOutsideColumns` | universities.py:29-33 | a row of a sheet frame has no value under a column that frame lacks |
| `Table.AllRowsMembers` | universities.py:27-33 | a row is in the concatenation exactly when it is a row of some sheet's frame |
| `Table.AllRowsWellFormed` | universities.py:33 | after `pd.concat` every cell under a column that no sheet has is NaN |
| `Table.PresentCellsComeFromTheirSheet` | universities.py:33 | a present cell of the concatenation belongs to a row of a sheet whose frame has that column; cells `pd.concat` fills for other sheets are NaN |
| `Table.Flatten` | pages/universitesall.py:54 | `pd.concat` of the parts in order; meaning stated by `Table.FlattenMembers` and `Table.FlattenAppend` |
| `Table.AllRows` | universities.py:27-33 | the rows of every sheet's frame, concatenated in sheet order; meaning stated by `Table.AllRowsMembers`, `Table.AllRowsWellFormed` and `Table.PresentCellsComeFromTheirSheet` |
| `Table.FlattenMembers` | pages/universitesall.py:54 | a row is in the concatenation exactly when some sheet part contains it |
| `Table.FlattenAppend` | pages/universitesall.py:54 | concatenating two groups of sheets equals concatenating each group and joining the results |
| `Table.UnionColumns` | universities.py:33 | the concatenated frame has a column exactly when some sheet's frame has it |
| `Table.FirstMissing` | universities.py:42-57 | reports no column exactly when every indexed column exists; otherwise it reports an indexed column that is absent |
| `Filter.Holds` | universities.py:42-57 | one boolean mask evaluated on one row (NaN fails every comparison); meaning stated by `Universities.ClausesMeanWanted` and `UniversitesAll.ClausesMeanWanted` |
| `Filter.Narrow` | universities.py:42-57 | the masks applied one `df = df[mask]` at a time; meaning stated by `Filter.NarrowIsKeep` |
| `Filter.TextMatches` | universities.py:56-57 | `str.contains(query, case=False, na=False)` on one cell; meaning stated by `Filter.TextMatchesMeaning` |
| `Filter.TextMatchesMeaning` | universities.py:56-57 | a cell matches exactly when it is text and a window of its lower-cased text equals the lower-cased query; a missing or numeric name or speciality never matches |
| `Filter.SatisfiesEach` | universities.py:41-59 | a row passes the chain exactly when it passes every mask in it |
| `Filter.SatisfiesAppend` | universities.py:41-59 | passing two chains joined together means passing each of them |
| `Filter.Keep` | universities.py:41-59 | filtering never lengthens the input |
| `Filter.KeepMembers` | universities.py:41-59 | soundness and completeness: a row survives exactly when it is in the input and passes every mask |
| `Filter.Positions` | universities.py:41-59 | the reference survivor positions are strictly increasing and in range, and position `i` is among them exactly when row `i` passes |
| `Filter.KeepIsPick` | universities.py:41-59 | the output is exactly the input rows at the passing positions, in order, duplicates included |
| `Filter.KeepIsSubsequence` | universities.py:41-59 | the output is an order-preserving subsequence of the input |
| `Filter.KeepKeep` | universities.py:42-53 | filtering by one list of masks and then by another is one filter by both |
| `Filter.NarrowIsKeep` | universities.py:42-57 | applying the masks one `df = df[mask]` at a time equals a single filter by their conjunction |
| `Filter.KeepSameClauses` | universities.py:42-57 | two chains with the same masks in any order give the same result |
| `Filter.KeepIdempotent` | universities.py:41-59 | filtering the output again with the same masks returns it unchanged |
| `Filter.KeepAll` | universities.py:41-59 | when every row passes, the input is returned unchanged |
| `Filter.KeepAppend` | pages/universitesall.py:51-54 | filtering a concatenation equals concatenating the filtered parts |
| `Filter.KeepFlatten` | pages/universitesall.py:27-54 | filtering each sheet and concatenating equals filtering the concatenation of all sheets |
| `Filter.UnindexableAppend` | universities.py:42-57 | a joined chain indexes a missing column exactly when one of its parts does |
| `Filter.UnindexableSingle` | universities.py:42-57 | one mask fails exactly when one of the columns it indexes is absent |
| `Filter.UnindexableEquals` | universities.py:42-51 | an active category mask fails exactly when its column is absent; an `'All'` mask never fails |
| `Filter.UnindexableTuition` | universities.py:53 | the tuition mask fails exactly when `Tuition Price` is absent |
| `Filter.UnindexableMentions` | universities.py:55-57 | an active search fails exactly when `University Name` or `Speciality` is absent; an empty query indexes nothing |
| `Filter.SatisfiesSingle` | universities.py:41-59 | a one-mask chain passes exactly the rows that pass that mask |
| `Filter.SatisfiesGuard` | universities.py:42-51 | a mask skipped because its filter is `'All'` constrains nothing; an active one must hold |
| `Filter.NarrowChecked` | universities.py:41-59 | the chain raises `KeyError` for an absent column exactly when some mask indexes one; otherwise it keeps the columns and yields the conjunction filter's rows |
| `Text.Contains` | universities.py:56-57 | substring search; meaning stated by `Text.ContainsIsOccurrence` |
| `Text.ContainsIgnoringCase` | universities.py:56-57 | the `case=False` search, both sides folded to lower case; meaning stated by `Text.ContainsIgnoringCaseMeaning` |
| `Text.ContainsIsOccurrence` | universities.py:56-57 | the substring scan succeeds exactly when some window of the text equals the query |
| `Text.ContainsIgnoringCaseMeaning` | universities.py:56-57 | a case-insensitive match is exactly an occurrence of the lower-cased query in the lower-cased text |
| `Text.Less` | universities.py:201 | Python's code-point order on `str`, which `sorted` uses; meaning stated by `Text.LessIrreflexive`, `Text.LessTransitive` and `Text.LessTotal` |
| `Text.LessIrreflexive` | universities.py:201 | Python's string order is irreflexive |
| `Text.LessTransitive` | universities.py:201 | Python's string order is transitive |
| `Text.LessTotal` | universities.py:201 | any two distinct strings are ordered one way or the other |
| `Text.Insert` | universities.py:201 | inserting keeps the list strictly ascending and adds exactly the new value |
| `Text.SortedUnique` | universities.py:201 | `sorted(unique(...))` is strictly ascending, so duplicate-free, and has exactly the input's values |
| `Options.TextValues` | universities.py:201 | the column's text values: missing cells are dropped as by `dropna()`, and numeric cells are dropped too (see Left out) |
| `Options.OptionList` | universities.py:201-205 | the choices start with `'All'`, the rest are strictly ascending and are exactly the column's text values; an absent column raises `KeyError` (the same lists at pages/universitesall.py:212-216) |
| `Universities.Clauses` | universities.py:42-57 | the page's mask chain; meaning stated by `Universities.ClausesMeanWanted` and `Universities.ClauseColumnsMeanLacks` |
| `Universities.CategoryClausesMeanChosen` | universities.py:42-51 | the five category masks pass a row exactly when each non-`'All'` filter equals its field exactly |
| `Universities.ClausesMeanWanted` | universities.py:42-57 | the whole chain passes a row exactly when its categories match, it has a tuition `t` with `min <= t <= max`, and, for a non-empty query, name or speciality contains the query ignoring case |
| `Universities.ClauseColumnsMeanLacks` | universities.py:42-57 | the chain indexes an absent column exactly when an active category column, `Tuition Price`, or (with a query) name or speciality is absent |
| `Universities.ApplyFilters` | universities.py:41-59 | for a frame whose tuition column is already coerced (no text): `KeyError` exactly for an absent indexed column; otherwise the columns are kept, the output is no longer than the input, its rows are exactly the input rows that are wanted, and none of them has a text tuition |
| `Universities.ApplyFiltersKeepsExactlyWanted` | universities.py:41-59 | the output equals the input at the ascending positions of the wanted rows: order-preserving, sound and complete, duplicates included |
| `Universities.WantedPositions` | universities.py:41-59 | the positions of the wanted rows are strictly increasing and in range, and the conjunction filter returns exactly the rows at those positions |
| `Universities.ApplyFiltersIdempotent` | universities.py:41-59 | applying `apply_filters` twice with the same arguments gives the same result as applying it once |
| `Universities.ApplyFiltersDistributes` | universities.py:41-59 | filtering a frame made of two parts equals filtering each part and concatenating |
| `Universities.LoadAllData` | universities.py:22-38 | `pd.concat` of no sheets raises; a `Tuition Price` column absent from every sheet raises `KeyError`; otherwise the columns are the union, each concatenated row is kept in order with only its tuition coerced, and cells under columns no sheet has are NaN |
| `Universities.LoadedCellsComeFromTheirSheet` | universities.py:27-36 | a present non-tuition cell of the loaded frame is a cell of a row from a sheet that has that column |
| `Universities.MajorMatchesComeFromSheetsWithMajor` | universities.py:33-43 | a row kept by an active `Major` filter comes from a sheet with a `Major` column: rows of sheets without one have NaN there and never match |
| `Universities.PriceRange` | universities.py:215-216 | there is no range exactly when no row has a tuition; otherwise the range bounds every present tuition and both ends are attained |
| `Universities.TuitionBounds` | universities.py:215-216 | for a coerced tuition column (no text), `int(min)` and `int(max)` raise when no tuition is present; otherwise they are the least and greatest present tuition: both bound every tuition and both occur |
| `Universities.InitialFilters` | universities.py:208-217 | the session's first filters: every category `'All'` and the observed tuition range; meaning stated by `Universities.InitialFiltersKeepPricedRows` |
| `Universities.InitialFiltersKeepPricedRows` | universities.py:208-217 | with every category `'All'`, the observed tuition range and no search, exactly the rows with a tuition survive; a frame whose rows all have one is returned unchanged |
| `UniversitesAll.Clauses` | pages/universitesall.py:36-49 | a sheet's mask chain; meaning stated by `UniversitesAll.ClausesMeanWanted` and `UniversitesAll.ClauseColumnsMeanLacks` |
| `UniversitesAll.CategoryClausesMeanChosen` | pages/universitesall.py:36-47 | the six category masks, `Spec` included, pass a row exactly when each non-`'All'` filter equals its field exactly |
| `UniversitesAll.ClausesMeanWanted` | pages/universitesall.py:36-49 | a row passes a sheet's chain exactly when its categories match and its tuition is present and within the inclusive range |
| `UniversitesAll.ClauseColumnsMeanLacks` | pages/universitesall.py:36-49 | once both price columns exist, the chain indexes an absent column exactly when an active category column is absent |
| `UniversitesAll.FilterSheet` | pages/universitesall.py:28-49 | a sheet raises `KeyError` exactly when its frame lacks a price column or an active category column; otherwise the result is its coerced rows filtered by the conjunction |
| `UniversitesAll.FilterSheets` | pages/universitesall.py:27-51 | the per-sheet loop, stopping at the first failing sheet; meaning stated by `UniversitesAll.FilterSheetsFails` and `UniversitesAll.FilterSheetsParts` |
| `UniversitesAll.FilterSheetsFails` | pages/universitesall.py:27-51 | the sheet loop raises `KeyError` exactly when some sheet lacks a column it indexes |
| `UniversitesAll.FilterSheetsParts` | pages/universitesall.py:27-51 | when no sheet lacks a column it indexes, the loop succeeds and yields one filtered part per sheet, in sheet order |
| `UniversitesAll.FlattenKept` | pages/universitesall.py:27-54 | parts filtered one per sheet and then concatenated equal the coerced concatenation filtered once |
| `UniversitesAll.PerSheetFilteringDistributes` | pages/universitesall.py:27-54 | when no sheet is broken the loop succeeds, and its concatenated output equals the concatenation of all sheets coerced and filtered in one pass |
| `UniversitesAll.LoadFilteredData` | pages/universitesall.py:22-60 | fails exactly when there are no sheets or some sheet lacks an indexed column; otherwise it returns the cap of the filtered concatenation: at most 10,000 rows, each coerced from some sheet and wanted |
| `UniversitesAll.LoadFilteredDataComplete` | pages/universitesall.py:49-57 | when the combined result fits under the cap, every wanted coerced row of every sheet is returned |
| `Sampling.Identity` | pages/universitesall.py:58 | the positions `0 .. n-1` are distinct and below `n` |
| `Sampling.Swap` | pages/universitesall.py:58 | a shuffle step keeps the length, the distinctness and the bounds of the positions |
| `Sampling.Shuffle` | pages/universitesall.py:58 | the partial shuffle keeps the length, distinctness and range of the permutation |
| `Sampling.SampleIndices` | pages/universitesall.py:58 | the sample picks exactly `n` distinct positions below the input length |
| `Sampling.Sample` | pages/universitesall.py:58 | `sample(n)` returns `n` rows, each the input row at a sampled position, so each drawn from the input |
| `Sampling.SamplePositionsDependOnLengthOnly` | pages/universitesall.py:58 | with a fixed seed, two inputs of equal length are sampled at the same distinct positions; the choice is a function of length and seed |
| `Sampling.Cap` | pages/universitesall.py:56-58 | at most 10,000 rows; a result within the cap is returned unchanged; a larger one yields exactly 10,000 rows at the distinct sampled positions, all drawn from the input |
| `Pagination.TotalPages` | universities.py:262-263 | `ceil(n / size)`: the pages hold all `n` rows, one page fewer would not, and the count is 0 exactly when `n = 0` (also pages/universitesall.py:270-271 with 16) |
| `Pagination.TotalPagesUnique` | pages/universitesall.py:270-271 | any count meeting the ceiling bounds is the page count |
| `Pagination.Slice` | universities.py:265-272 | Python's `s[a:b]` for non-negative bounds has length `max(0, min(b,n) - min(a,n))` and starts at `s[a]` |
| `Pagination.PageStart` | universities.py:265 | `start_idx = (current_page - 1) * items_per_page` (also pages/universitesall.py:276); meaning stated by `Pagination.RenderUniversitiesPage` and `Pagination.RenderAllSheetsPage` |
| `Pagination.RenderUniversitiesPage` | universities.py:265-273 | the 4-wide grid shows input rows `start, start+1, ...` with `start = (page-1)*24`: `min(24, n - start)` of them, or none when `start >= n` |
| `Pagination.RenderAllSheetsPage` | pages/universitesall.py:276-284 | the grid bounded by `min(16, n - start)` shows input rows from `start = (page-1)*16`: `min(16, n - start)` of them, or none when that is not positive |
| `Pagination.Previous` | universities.py:309-312 | Previous moves back exactly one page when `page > 1` and otherwise stays; from page 1 or above it never goes below 1 (also pages/universitesall.py:313-316) |
| `Pagination.Next` | universities.py:316-319 | Next moves forward exactly one page when `page < total_pages` and otherwise stays, so it never passes `max(page, total_pages)` (also pages/universitesall.py:320-323) |
| `Pagination.PreviousUndoesNext` | universities.py:309-319 | Previous undoes a Next that moved |
| `Pagination.NextUndoesPrevious` | universities.py:309-319 | Next undoes a Previous that moved, when the page left exists |
| `Pagination.Start` | universities.py:218-221 | a fresh session is on page 1 with an empty search |
| `Pagination.Rerun` | universities.py:245-247 | submitting, or a search text that differs from the stored one, resets the page to 1 and stores the text; otherwise the session is unchanged |
| `Pagination.Step` | universities.py:245-247 | one page run: a rerun, or a press of Previous (309-312) or Next (316-319); meaning stated by `Pagination.Rerun`, `Pagination.Previous` and `Pagination.Next` |
| `Pagination.Replay` | universities.py:245-319 | the session after a sequence of runs; meaning stated by `Pagination.ReplayKeepsPagePositive`, `Pagination.ReplayFromStart` and `Pagination.ReplayStaysInRange` |
| `Pagination.ReplayKeepsPagePositive` | universities.py:245-319 | whatever events follow, a counter that is at least 1 stays at least 1 |
| `Pagination.ReplayFromStart` | universities.py:218-219 | from a fresh session, the page counter is at least 1 after any events (and after the one-time initialisation at pages/universitesall.py:273-274) |
| `Pagination.ReplayStaysInRange` | universities.py:309-319 | while the page count stays fixed, a counter in `[1, max(1, total_pages)]` stays in that range |

## Left out

- Google Sheets authentication and fetching are left out. So are Streamlit's cache decorators and their one-hour lifetime. The worksheets are parameters of `LoadAllData` and `LoadFilteredData`.
- CSS, HTML card markup, the `:,.0f` currency formatting and the `'N/A'` display defaults are presentation and are not modelled. Columns used only for display (city, currencies, duration, picture) are not part of `Row`.
- Universities.ApplyFilters: requires that no tuition is text (`Table.TuitionCoerced`). On a tuition column that still holds text, the comparisons at universities.py:53 raise `TypeError`, and the model has no such error. `load_all_data` coerces the column before any filtering, so the page never passes such a frame; `LoadAllData` ensures its result is coerced, and a successful `ApplyFilters` keeps it so.
- Universities.TuitionBounds: requires that no tuition is text, for the same reason. `min()` and `max()` of a column mixing text and numbers raise `TypeError` at universities.py:215-216, and that error is not modelled.
- Table.ToNumeric: reads only optionally signed decimal integers. Text that pandas reads as a float (a decimal point, an exponent, surrounding spaces, `inf`) becomes missing here. Prices are integers throughout, because floating point is not modelled.
- Text.ContainsIsOccurrence: `str.contains` defaults to `regex=True`, so the source treats the query as a regular expression. The model matches it literally, which agrees with the source only for queries without regex metacharacters. Case folding is ASCII only, where Python folds full Unicode.
- Sampling.SampleIndices: the positions come from a stand-in generator (a partial Fisher-Yates shuffle over a linear congruential generator), not numpy's Mersenne Twister. The contracts state only what both share: exactly `n` distinct in-range positions, fixed by the length, `n` and the seed.
- The call at pages/universitesall.py:257-266 passes seven filter arguments where the function takes eight. Python raises `TypeError` for the missing `tuition_max` before the function body runs. `LoadFilteredData` models the function by its own signature instead.
- The all-sheets page builds its option lists and its slider bounds from the first worksheet only. `int(df['Tuition Price'].min())` on that uncoerced sheet is not modelled. `OptionList` models how one list is built.
- Options.OptionList: cells in a category column are treated as text. A numeric cell never equals a filter value, and `OptionList` (through `Options.TextValues`) drops it, although `dropna()` keeps it. The source's `sorted` would raise on a mix of numbers and text. `.str.contains` on a column with no text at all would raise. Neither error is modelled.
- `math.ceil(len / size)` uses float division. It agrees with `TotalPages` for row counts below 2^53.
- Streamlit widget mechanics are left out: the select boxes' `.index` lookups, form submission, `st.rerun`, and at most one button press per run. The page counter is modelled as the event sequence in `Pagination.Replay`.
- pages/Scholarships.py is a static page with no logic, and it is not part of this model.
