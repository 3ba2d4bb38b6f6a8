# Nestor: enrichment, filtering and ranking, in Dafny

Nestor is a dashboard that recommends regions from a housing and economic
dataset. This project models the data pipeline under its user interface:

- **Loading and enrichment** (`load_data`). The parsed file is copied into a
  data frame, and its columns are then written in order:
  - a synthetic `HealthcareAccess` column when the file lacks one;
  - `CrimeRateRaw`, the row-wise sum `Murder + Assault + Rape`;
  - `CrimeRate`, which is `CrimeRateRaw` min-max rescaled onto [1, 10];
  - `SchoolRating`, rescaled onto [1, 10] in place.

  The frame is the class `Loader.Frame` over an array of records. Its method
  `Assign` is the column assignment `df[c] = values`. `Loader.LoadData` runs the
  steps and is proved equal to the specification function `Loader.Enriched`.
  The module `LoaderProperties` proves what the enrichment promises.
- **Filter and rank** (module `Engine`). The four preference modes form one
  tagged datatype, `Mode`, dispatched by a single `match`:
  - Budget;
  - Bedrooms;
  - Crime Rate;
  - Healthcare Access.

  Each mode selects rows with a conjunctive condition and chooses its fixed
  display columns. The Bedrooms and Healthcare Access modes first check that
  their column exists. The result is then ranked by `DesirabilityScore`, which
  gives the top pick and the five-row chart set. The price-trend rows are taken
  from the full table, for the regions in the chart set.

Prices, scores and ratings are exact `real`s. A boolean-mask selection is the
generic `Mask.Keep`. It is proved to be the order-preserving subsequence of
exactly the rows that satisfy the predicate (`Mask.IsMask`).

Three behaviours of the program deserve a note:

- **Constant column.** scikit-learn's `MinMaxScaler` divides by 1 when a
  column's range is zero, so every value maps to 1, and `MinMax.Scale` does the
  same.
- **Tie order.** `sort_values` uses its default algorithm, which is not stable,
  so no contract says anything about the order of rows with equal scores.
- **Empty table.** The scaler refuses an empty column, so loading a file with no
  rows fails. `LoadData` returns `Failure(EmptyTable)` in that case.

## Model

| member | source | states |
|---|---|---|
| MinMax.Min | nestor_app.py:19-21 | the fitted minimum is at most every value of the column and is one of them |
| MinMax.Max | nestor_app.py:19-21 | the fitted maximum is at least every value of the column and is one of them |
| MinMax.ScaleBounds | nestor_app.py:19-21 | a value inside the fitted range is rescaled into [1, 10] |
| MinMax.ScaleMonotone | nestor_app.py:19-21 | inside the fitted range, x <= y exactly when the rescaled x <= the rescaled y |
| MinMax.ScaleTop | nestor_app.py:19-21 | when the fitted range is not empty, its maximum is rescaled to exactly 10 |
| MinMax.MinMaxScaleInRange | nestor_app.py:19-21 | every rescaled value of a column lies in [1, 10], including for a constant column |
| MinMax.MinMaxScaleMinToLow | nestor_app.py:19-21 | a row that holds the column minimum is rescaled to exactly 1 |
| MinMax.MinMaxScaleMaxToHigh | nestor_app.py:19-21 | when max > min, a row that holds the column maximum is rescaled to exactly 10 |
| MinMax.MinMaxScaleMonotone | nestor_app.py:19-21 | the rescaling preserves and reflects the order of the raw values |
| Table.AssignedValues | nestor_app.py:13-21 | after `df[c] = values`, column c reads back `values` and every other numeric column is unchanged |
| Loader.Frame.constructor | nestor_app.py:9 | the new frame holds exactly the parsed table |
| Loader.Frame.Assign | nestor_app.py:13-21 | a column assignment writes each row's cell from `values` in row order and changes nothing else; adding HealthcareAccess marks the column present |
| Loader.LoadData | nestor_app.py:8-23 | loading fails on an empty table; otherwise it yields exactly the table `Enriched(source, draws)` |
| LoaderProperties.CrimeSumsIgnoreHealthcare | nestor_app.py:11-16 | adding HealthcareAccess leaves the crime sums unchanged |
| LoaderProperties.EnrichedColumns | nestor_app.py:16-21 | the enriched CrimeRate is the rescaled crime sums of the source, and the enriched SchoolRating is the rescaled raw SchoolRating of the source |
| LoaderProperties.EnrichedRows | nestor_app.py:11-16 | enrichment keeps the row count, the order and every untouched column; CrimeRateRaw = Murder + Assault + Rape; an existing HealthcareAccess is passed through, a missing one is filled from the draws and marked present |
| LoaderProperties.SynthesizedHealthcareInRange | nestor_app.py:11-13 | a synthesized HealthcareAccess gives every row a value in [1, 10] when the generator's values lie there |
| LoaderProperties.EnrichedInRange | nestor_app.py:19-21 | every enriched CrimeRate and SchoolRating lies in [1, 10] |
| LoaderProperties.EnrichedCrimeExtremes | nestor_app.py:16-20 | the row with the least crime sum gets CrimeRate 1; when the sums differ, the row with the greatest gets 10 |
| LoaderProperties.EnrichedSchoolExtremes | nestor_app.py:21 | the row with the lowest raw SchoolRating gets 1; when the ratings differ, the row with the highest gets 10 |
| LoaderProperties.EnrichedRowScaled | nestor_app.py:16-21 | each enriched row's CrimeRate and SchoolRating are the rescaled crime sum and raw rating of the same source row |
| LoaderProperties.EnrichedKeepsCrimeOrder | nestor_app.py:16-20 | CrimeRate orders the rows as their crime sums do, in both directions |
| LoaderProperties.EnrichedKeepsSchoolOrder | nestor_app.py:21 | the new SchoolRating orders the rows as the raw one does, in both directions |
| Mask.Keep | nestor_app.py:37-41 | a mask selection holds only satisfying elements of the input and is a sub-multiset of it |
| Mask.KeepIsMask | nestor_app.py:37-41 | a mask selection is the order-preserving subsequence of exactly the satisfying elements |
| Mask.KeepNone | nestor_app.py:37-41 | a mask that no element satisfies selects nothing |
| Ranking.HeadDominates | nestor_app.py:96 | a row scoring at least as high as a ranked rearrangement's rows can head it and keep it ranked |
| Ranking.Insert | nestor_app.py:96 | inserting into a ranking keeps it non-increasing by score and adds exactly that row |
| Ranking.Rank | nestor_app.py:96 | the ranking is a permutation of its input in non-increasing DesirabilityScore order |
| Ranking.TopPick | nestor_app.py:89-90 | a top pick exists exactly when there are rows; it is one of them and scores at least as high as every one |
| Ranking.TopFiveSpec | nestor_app.py:100 | the chart set has min(5, n) rows, is a prefix of the ranking, is drawn from the rows, and scores at least as high as every row left out |
| Engine.Select | nestor_app.py:29-82 | a missing Bedrooms or HealthcareAccess column is reported exactly for its mode and yields no rows and no columns; otherwise the display columns include RegionName, SchoolRating and DesirabilityScore; every selected row is a table row that satisfies the mode |
| Engine.SelectIsMask | nestor_app.py:37-77 | when its column is present, a mode selects the order-preserving subsequence of exactly the rows that satisfy its condition |
| Engine.EmptyBudgetSelectsNothing | nestor_app.py:37-42 | a budget with max_price < min_price selects no rows, with the Budget columns and no warning |
| Engine.TrendRowsExact | nestor_app.py:106-107 | the trend rows are the order-preserving subsequence of the full table of exactly the rows whose region is in the chart set, whether or not they pass the filter |
| Engine.RenderSpec | nestor_app.py:88-119 | with no match there is no top pick, chart, trend or download; otherwise the top pick is a best match, the chart is the first min(5, n) rows of the ranking and no match left out of it scores higher, the trend comes from the full table and the download is the selection; the result table appears exactly when the mode's column is present, ranked best first |
| Engine.MissingColumnRendersNothing | nestor_app.py:48-57 | a Bedrooms or Healthcare Access query whose column is missing yields only a warning naming that column |

## Left out

- Reading and parsing the CSV file, including dates (nestor_app.py:9). The
  parsed file is the `source` argument, and a date is a day number. Missing or
  malformed required columns are not modelled.
- The seeded NumPy generator and its rounding to one decimal
  (nestor_app.py:12-13). Its output is the `draws` parameter, one value per row.
  Its range [1, 10] is a hypothesis of `SynthesizedHealthcareInRange`.
  Determinism across loads holds because every function here is deterministic.
- Floating-point rounding and NaN handling. Arithmetic is exact. An empty cell
  exists only in the optional Bedrooms and HealthcareAccess columns, as `None`,
  and it never satisfies a comparison.
- The order of rows with equal DesirabilityScore. `Rank` happens to be a stable
  insertion sort. No contract depends on that, because the program's sort does
  not promise it.
- The `"RegionName" in filtered.columns` guard (nestor_app.py:99, 105).
  RegionName is a column of every table here, so the guard always holds.
- `pivot_table` (nestor_app.py:111): the mean of HomePrice per date and region,
  reshaped for the line chart. The model stops at the trend rows.
- Projecting the result table onto its display columns, the CSV text of the
  download (nestor_app.py:119) and every Streamlit call. These cover the
  widgets, titles, warnings as text, charts, the download button and the
  `@st.cache_data` memoisation. The model returns the data each would receive.
