# Emissions reduction pathways dashboard: a verified model of its accounting core

The dashboard shows, per sector, subsector, country and asset, how much
emissions could be reduced. It offers two methods:

- **emissions reduction strategies**: each asset carries `emissions_reduced_at_asset` and a net `total_emissions_reduced_per_year`;
- **percentile benchmark**: an asset's reduction is the gap between its emissions and what its activity would emit at a chosen percentile of its peers, scaled by a chosen proportion.

The numbers come from SQL text run by DuckDB, plus a small amount of pandas and Python around it. This project models what those queries and helpers *compute*:

- rows are typed records;
- SQL NULL is `Option`;
- quantities are exact `real`s;
- every query is a function over a sequence of rows.

The modules are:

| module | what it models |
|---|---|
| `Wrappers`, `Text`, `Seqs` | Option, Python string helpers (`replace`, `split`, `lower`, `capitalize`, `str(int)`), and sequence tools: sums, GROUP BY as `Keys`/`Group`, a stable sort, filters. |
| `Sql` | SQL aggregate semantics over NULL: `SUM`, `AVG`, `MAX`, `BOOL_OR` and `COUNT(DISTINCT …)` skip NULLs. `GREATEST(0, …)`, `NULLIF` division, `ROUND(x, 0)`, and `ORDER BY … DESC` with NULLs last. |
| `SqlText` | The `', '.join(f"'{x}'" …)` list literal of the demo queries, the asset label `iso3: name (id)`, and the regex that reads the id back. |
| `Dropdown` | `format_dropdown_options` as a loop-based method. |
| `Regions` | `map_region_condition`, `is_country`, and `relabel_regions` as a class whose method rewrites its columns in place. |
| `Benchmark` | `map_percentile_col` and `return_sector_type`. |
| `ColorLines` | `abatement_subsector_options`, the colour tables and the reference lines of `define_color_lines`. |
| `Display` | The value line and tooltip of `bordered_metric` and `bordered_metric_abatement`. |
| `Curve` | The geometry of `plot_abatement_curve`: sort, running sum, the prepended zero row (built by a loop), step segments, highlight midpoints, and the country and balancing-authority pivot. |
| `InductionJson` | The numeric part of `get_reduction_induction_json`, as a loop-based method. |
| `Assets` | The annual asset record read by every query. |
| `BenchmarkReduction` | The benchmark LEFT JOIN and the `GREATEST(0, (E − Σ activity·pct)·p/100)` reduction. |
| `SectorReduction` | The three forms of `build_sector_reduction_sql`: at-asset, netting and benchmark. |
| `AssetTable` | `build_asset_reduction_sql`. |
| `Sentence4` | `build_sentence_4_sql`. |
| `AbatementQueries` | `find_sector_assets_sql` and `summarize_ers_sql` of utils/queries.py. |
| `DemoQueries` | `find_sector_assets_sql`, `find_sector_country_sql`, `summarize_totals_sql` and `summarize_ers_sql` of utils/queries_demo.py. |

The caller supplies some SQL fragments as text: `dropdown_join`, `reduction_where_sql`, `where_sql` and `benchmark_join`. These are taken as the rows they keep: a query's `rows` parameter is the annual table after those fragments. The one exception is the `sector_mapping` CTE of the netting form, which reads the whole table, so it gets its own `table` parameter.

The model follows the code as written. In two places the code evidently does not do what was intended. Both are listed under Findings with the as-written and the corrected behaviour, and the rest of the model uses the corrected one.

## Model

| member | source | states |
|---|---|---|
| Dropdown.FormatDropdownOptions | utils/utils.py:12-35 | The loop returns the options and mapping of the fold `Run` over the raw values. The formatter uses `lowercase_words`, or `{"and"}` when it is None. |
| Dropdown.RunSeen | utils/utils.py:24-33 | There is one option per raw value, and the `seen` set is exactly the set of options produced. |
| Dropdown.RunPrefix | utils/utils.py:27-33 | The options of a prefix of the input are the same prefix of the options, so labels come out in input order. |
| Dropdown.RunLabels | utils/utils.py:16-33 | Option i is the formatted raw value. If that label already occurs among options 0..i-1, it is the label plus ` (raw)`. |
| Dropdown.RunMappingKeys | utils/utils.py:31-33 | The mapping's keys are exactly the options. |
| Dropdown.RunMappingLast | utils/utils.py:33 | `mapping[option i] == raw i` whenever no later option has the same label (the last write wins). |
| Regions.RegionConditionShapes | utils/utils.py:39-110 | `'Global'` is the only selection with no condition. A continent filters `continent` on its own name. A region group filters one of the five flag columns with a boolean. Either United States spelling selects `country_name` in both spellings. Anything else filters `country_name` on itself. |
| Regions.NonCountriesAreTheRegionChoices | utils/utils.py:384-407 | `is_country`'s list is `'Global'`, then the seven continents, then the nine region-group keys of `map_region_condition`. |
| Regions.IsCountryIffCountryColumn | utils/utils.py:384-407 | `is_country(r)` holds exactly when `map_region_condition(r)` returns a condition on `country_name`. |
| Regions.Replace | utils/utils.py:121 | `Series.replace(mapping)`: same length, each cell mapped when it is a key and kept otherwise. |
| Regions.RegionFrame.RelabelRegions | utils/utils.py:112-122 | The frame's new columns are the old ones relabelled by the four-entry `dict_relabel` table, in place. |
| Regions.RelabelEffect | utils/utils.py:119-121 | Relabelling keeps the set of columns and each column's length. A column not in the table is unchanged. A listed column that is present is replaced cell by cell. |
| Regions.RelabelIdempotent | utils/utils.py:113-121 | Relabelling twice gives the same frame as relabelling once, since no new label is itself a key of its column's mapping. |
| Benchmark.MapPercentileCol | utils/utils.py:289-305 | A column is returned exactly for the keys of `percentile_dict`. Any other label is the lookup failure (KeyError), modelled as None. |
| Benchmark.PercentileColFormula | utils/utils.py:293-302 | For N = 10..100 in steps of ten, `"Nth"` maps to `percentile_avg_{N-10}_to_{N}`. |
| Benchmark.PercentileColDomain | utils/utils.py:291-305 | The defined labels are exactly `10th`, `20th`, …, `100th`. |
| Benchmark.PercentileColInjective | utils/utils.py:291-303 | Distinct labels map to distinct columns. |
| Benchmark.ReturnSectorType | utils/utils.py:870-875 | `'asset'` exactly for the five asset sectors and `'raster'` exactly for the five raster sectors. None (an unbound `sector_type`) otherwise. |
| Benchmark.SectorListsDisjoint | utils/utils.py:871-874 | No sector is in both lists, so the two branches never compete. |
| ColorLines.Flatten | utils/utils.py:544-546 | The nested comprehension over `abatement_subsector_options` yields exactly the subsectors contained in some sector's list. |
| ColorLines.DefineColorLinesCoversSubsectors | utils/utils.py:539-562 | A result exists exactly for the three supported metrics. Its `dict_lines` has exactly one key per subsector offered in `abatement_subsector_options`. |
| ColorLines.OutlierLinesOnlyWhereListed | utils/utils.py:539-560 | Every offered subsector has an entry. The entry is non-empty iff the metric is `emissions_factor` and the subsector is `solid-waste-disposal` or `food-beverage-tobacco`. |
| ColorLines.OutlierSubsectorsAreOffered | utils/utils.py:540-546 | Both outlier subsectors are among the offered ones, so neither outlier line is lost by the comprehension. |
| ColorLines.RelabelledValuesHaveColours | utils/utils.py:493-518 | Every label that `relabel_regions` writes into a column has a colour in that column's `dict_color` table. |
| Display.CompleteListShowsAll | utils/utils.py:165-168 | A list whose length equals a truthy `total_options_in_scope` shows `All (n)`, and its tooltip lists all items. |
| Display.ListDisplayShape | utils/utils.py:169-177 | Otherwise the value line writes out the first k ≤ 2 items (k ≥ 1 when there are any), joined by `", "`. It is followed by ` +m more` with m the number not written. With no suffix, every item was written out. |
| Display.ListDisplayStartsWithFirstItem | utils/utils.py:169-177 | Outside the `All (n)` case, a non-empty list's value line starts with its first item. |
| Display.ListTooltipNamesAll | utils/utils.py:165-177 | A list's tooltip is all items joined by `", "`, and `tooltip_value` does not affect a list's display. |
| Display.SingleLongItemShowsZeroMore | utils/utils.py:171-173 | A one-item list longer than 19 characters shows `item +0 more`. |
| Display.ScalarCard | utils/utils.py:178-180 | A non-list shows its own text. The tooltip is `tooltip_value` when that is non-empty, and the text otherwise. |
| Curve.SortCurveOrder | utils/utils.py:589 | The sorted rows are a permutation of the input. The metric is non-increasing (+inf first, −inf after every finite value, NaN last), and rows with equal metric have activity non-decreasing. |
| Curve.InfinitySortsFirst | utils/utils.py:612-613 | A row whose metric is +inf is sorted to the front, so the zero row copies its colour. |
| Curve.ColourOf | utils/utils.py:593 | `map(dict_color[…])` gives a colour exactly when the value is a key of the palette, and NaN otherwise. |
| Curve.NanToFalseKeepsColour | utils/utils.py:592-593 | Turning NaN into False before the colour lookup never changes the colour. |
| Curve.Frame | utils/utils.py:619-629 | The plotted frame exists exactly when there is a data row (`df.loc[0,'color']` fails otherwise). It has one row more than the data. |
| Curve.NewRow | utils/utils.py:619-627 | The loop builds `new_row` column by column: the first data row's colour in `color`, 0 in numeric columns, NaN elsewhere. |
| Curve.BuildFrame | utils/utils.py:591-629 | The loop that accumulates `activity_cum` and prepends the zero row returns exactly `Frame`. |
| Curve.FrameCumulative | utils/utils.py:591-629 | The zero row has `activity_cum` 0 and the first data row's colour. Its id is the numeric 0 in the asset branch (`asset_id` is a numeric column) and NaN in the name-keyed branches. Each later `activity_cum` is the previous one plus its own activity. The last `activity_cum` is the total activity. |
| Curve.FrameCumulativeMonotone | utils/utils.py:591 | With non-negative activities, `activity_cum` never decreases down the frame. |
| Curve.Segments | utils/utils.py:655-694 | The corrected step curve has one filled segment per data row. |
| Curve.SegmentsTile | utils/utils.py:655-694 | The corrected segments start at 0, each starts where the previous one ends, and each is as wide as its row's activity. Each is drawn at its own row's metric and colour, and the last ends at the total activity. |
| Curve.SegmentsAsWritten | utils/utils.py:672-694 | The traces as written give one segment per data row. |
| Curve.SegmentsAsWrittenLag | utils/utils.py:655-694 | As written, the first segment has its own height but every later segment k has the height of row k-1. |
| Curve.SegmentsAsWrittenCounterexample | utils/utils.py:679-681 | Two sorted rows with metrics 5 and 3: the second is filled at height 5. |
| Curve.Highlighted | utils/utils.py:697 | The highlighted rows are exactly the frame rows whose id is among the selected ones. |
| Curve.HighlightAtMidpoint | utils/utils.py:697-722 | A data row's highlight marker x, `activity_cum − activity/2`, is the midpoint of its own segment. A highlighted zero row can only be the asset branch's id 0, and its marker is at x = 0. |
| Curve.ZeroRowHighlighted | utils/utils.py:619-629 | The zero row is highlighted exactly when the hover id is the numeric `asset_id` and 0 is among the selected ids. |
| Curve.Ratio | utils/utils.py:612 | `emissions_quantity / activity` is finite exactly for non-zero activity, and then times activity gives the emissions. Over zero activity it is +inf for positive emissions, −inf for negative ones and NaN for 0 / 0. |
| Curve.PivotRows | utils/utils.py:597-611 | One pivot row per group key of the full `fds_key` index, each built from exactly that key's rows. |
| Curve.PivotSeparatesKeys | utils/utils.py:597-611 | Two kept assets that differ in the colouring value, `iso3_country`, `country_name`, `sector`, `subsector` or, when grouping by it, the balancing-authority region fall into different pivot rows. |
| Curve.KeptPoints | utils/utils.py:611 | The pivot keeps exactly the rows whose colouring value is not NaN. |
| Curve.PivotKeepsTotalActivity | utils/utils.py:611 | The pivot rows' activity adds up to the kept assets' activity. |
| Curve.GroupedCurveEndsAtTotal | utils/utils.py:611-629 | After the pivot, the sort and the zero row, the last `activity_cum` of a grouped curve is the kept assets' total activity. |
| Curve.PivotEmissionsFactor | utils/utils.py:611-612 | A pivot row's activity is its group's summed activity. Its `emissions_factor` is summed emissions over summed activity. |
| InductionJson.CoreValue | utils/utils.py:902-904 | `row.get(col, 0) or 0` is never None. It is NaN exactly when the cell is NaN (NaN is truthy). A non-zero value is the cell itself. |
| InductionJson.CountingRows | utils/utils.py:891-894 | The counted induced rows are exactly those received by the sector with a value that is neither None nor NaN. |
| InductionJson.InductionsAreCountingRows | utils/utils.py:891-899 | `inductions_list` has one entry per counted row, in order, carrying that row's inducing sector and value. |
| InductionJson.NetInductionsIsContributionSum | utils/utils.py:911-913 | The net inductions total is the sum, over the whole induced frame, of each counted row's value. |
| InductionJson.NetColour | utils/utils.py:915 | The net total is shown red exactly when there are inductions and their total is ≥ 0. With no inductions the hover shows green 0. |
| InductionJson.InductionColour | utils/utils.py:940-947 | Each induction is shown red exactly when its value is ≥ 0. |
| InductionJson.GetReductionInductionJson | utils/utils.py:885-977 | The loop emits one summary per stacked-bar row, in order, each that row's `Summarize`. |
| Sql.SqlSum | utils/queries_demo.py:252 | `SUM` is NULL exactly when every value is NULL. Otherwise it is the sum of the non-NULL values. |
| Sql.SqlAvg | utils/queries.py:232 | `AVG` is NULL exactly when every value is NULL. |
| Sql.SqlAvgBetween | utils/queries_demo.py:107 | An `AVG` lies between any bounds of its non-NULL values. |
| Sql.SqlMax | utils/queries_demo.py:293-294 | `MAX` is NULL exactly when all values are; otherwise it is one of the values and at least every other one. |
| Sql.BoolOr | utils/queries_demo.py:107 | `BOOL_OR` is true exactly when some value is true, and NULL exactly when all are NULL. |
| Sql.CountDistinct | utils/queries_demo.py:262-267 | `COUNT(DISTINCT …)` is at most the row count, and at least 1 when some value is non-NULL. |
| Sql.CountDistinctOfNoDup | utils/queries_demo.py:306 | Over rows whose keys are pairwise distinct and never NULL, `COUNT(DISTINCT …)` is the row count. |
| Sql.Round | utils/queries.py:636-637 | `ROUND(x, 0)` lies within 0.5 of x and keeps its sign. |
| Sql.DivideOrNull | utils/queries.py:559 | `a / NULLIF(b, 0)` is NULL exactly when a or b is NULL or b is 0. Otherwise the quotient times b gives a. |
| Sql.NullIfZero | utils/queries.py:559 | `NULLIF(x, 0)` is never 0. |
| Sql.GreatestZero | utils/queries.py:240-247 | `GREATEST(0, x)` is ≥ 0. It is x when x ≥ 0, and 0 when x ≤ 0 or x is NULL. |
| Sql.SqlSumOfGroupSums | utils/queries.py:58-87 | Summing per-group sums over all group keys gives the plain `SUM` of the rows. |
| Sql.SqlSumPermutation | utils/queries_demo.py:172 | Reordering rows (an `ORDER BY`) does not change a `SUM` over them. |
| Sql.SortedDescNullsLast | utils/queries.py:404-405 | In rows ordered by `… DESC`, a non-NULL value is preceded only by non-NULL values that are at least as large. |
| SqlText.QuoteListRoundTrip | utils/queries_demo.py:18-19 | Splitting the quoted list literal back gives the original list whenever no element contains a quote. |
| SqlText.ParseLabelAsWrittenRecoversId | tabs/tab05_abatement_curve_demo.py:147 | The first `\((\d+)\)` match of `iso3: name (id)` is the id when `iso3: name` contains no parenthesised digit run. |
| SqlText.ParseLabelAsWrittenCounterexample | tabs/tab05_abatement_curve_demo.py:147 | The label of asset 123 named `Plant (7)` in USA parses as 7. |
| SqlText.ParseLabelRoundTrip | utils/queries_demo.py:28 | Reading the trailing parenthesised digits recovers the id from every label, whatever the name. |
| BenchmarkReduction.MatchingBenchmarks | utils/queries.py:250-253 | The benchmark rows joined to an asset row are exactly those matching its subsector and `asset_type_2`. |
| BenchmarkReduction.JoinRow | utils/queries.py:250 | A LEFT JOIN gives every asset row at least one joined row. |
| BenchmarkReduction.LeftJoinKeepsUnmatched | utils/queries.py:250-253 | Every asset row survives the join. An unmatched row appears with a NULL percentile. |
| BenchmarkReduction.GroupEmissions | utils/queries.py:234-238 | E is `SUM(emissions)` when `AVG(ef_12_moer)` is NULL, otherwise `SUM(activity) * AVG(ef_12_moer)`. |
| BenchmarkReduction.SectorAssetReduction | utils/queries.py:240-247 | The reduction is ≥ 0. It equals the gap `(E − Σ activity·pct)·p/100` when that is ≥ 0, and 0 when it is negative or NULL. |
| BenchmarkReduction.ReductionFormula | utils/queries.py:240-247 | With E and the benchmark sum both present, the reduction is `max((E − b)·p/100, 0)`. |
| BenchmarkReduction.TableAssetReduction | utils/queries.py:441-449 | In the asset table, a NULL percentile gives exactly 0. Otherwise the result is the sector branch's reduction, so it is always ≥ 0. |
| BenchmarkReduction.UnbenchmarkedAssetHasNoReduction | utils/queries.py:441-449 | An asset with no matching benchmark has reduction 0 in both the sector and the asset-table forms. |
| SectorReduction.AtAssetEmissions | utils/queries.py:58-87 | In the at-asset form, a sector's emissions are the `SUM` over its rows; the inner grouping neither drops nor repeats any. |
| SectorReduction.AtAssetReductionOncePerValue | utils/queries.py:74-87 | A row repeating an existing `(asset_id, sector, reduction)` group leaves the sector's reduction unchanged: one value is counted per group. |
| SectorReduction.MappedSectors | utils/queries.py:94-99 | `SELECT DISTINCT sector, subsector` gives each mapped sector once. |
| SectorReduction.MappedSectorsMembers | utils/queries.py:94-116 | The sectors a slot subsector maps to are exactly the sectors of the table rows with that subsector. |
| SectorReduction.InducedIsSumOfSlots | utils/queries.py:101-166 | A sector's inbound induced emissions are the three slot totals added (UNION ALL then SUM). The result is NULL only when all three are. |
| SectorReduction.InducedIgnoresRepeatedRows | utils/queries.py:110-120 | A row repeating the induced slots of an existing asset row changes no sector's induced total (`SELECT DISTINCT`). |
| SectorReduction.SlotIgnoresRepeatedRow | utils/queries.py:110-120 | Per slot, such a row adds no new distinct tuple. |
| SectorReduction.ArEmissionsIsSectorSum | utils/queries.py:168-192 | The netting form's asset-side emissions are the `SUM` over the sector's rows. |
| SectorReduction.InducedExcess | utils/queries.py:200-204 | The excess is ≥ 0, positive exactly when `ind > ar` (coalesced), and at least `ind − ar`. |
| SectorReduction.NetReduction | utils/queries.py:206-210 | The net reduction is ≥ 0, positive exactly when `ar > ind`, and at least `ar − ind`. |
| SectorReduction.NettingSplit | utils/queries.py:200-210 | At most one of net reduction and excess is non-zero, and net − excess = ar − ind. |
| SectorReduction.NettingJoin | utils/queries.py:194-214 | The full outer join gives one row per sector, no sector twice. Every asset sector and every induced sector appears, and nothing else. |
| SectorReduction.NettingSectors | utils/queries.py:194-214 | The joined sectors are the asset sectors, then the induced-only ones. |
| SectorReduction.NettingValues | utils/queries.py:194-210 | Each joined row carries the sector's induced total and its excess and net reduction. Asset-side columns are the sector's sums for an asset sector and NULL for an induced-only one. |
| SectorReduction.BenchAssets | utils/queries.py:224-264 | Each benchmark asset row carries its group's E and reduction. |
| SectorReduction.BenchmarkSectorBounds | utils/queries.py:218-266 | A sector's benchmark potential is non-NULL, ≥ 0, and at least the potential of each of its assets. |
| SectorReduction.BuildSectorReductionSpec | utils/queries.py:44-267 | The query is the netting form exactly when `use_ct_ers` holds and the reduction column is not `emissions_reduced_at_asset`. The at-asset form lists each sector of the rows once, with that sector's `SUM` of emissions. The netting form lists each asset or induced sector once and nothing else, each row carrying its sector's totals and their netting. The benchmark form lists each sector of its assets once, with a non-NULL potential that is ≥ 0 and at least each of the sector's assets'. |
| SectorReduction.AtAssetBranchForm | utils/queries.py:55-89 | The at-asset query has one row per sector of the kept rows, no sector twice and no other sector, and each row's emissions are the `SUM` over its sector's rows. |
| SectorReduction.NettingBranchForm | utils/queries.py:90-215 | The netting query has no sector twice, covers every asset sector and every induced sector and nothing else, and every row carries its sector's induced total, its excess and its net potential. An asset sector also carries its emissions `SUM` and its reduction; an induced-only sector has NULL for both. |
| SectorReduction.BenchmarkBranchForm | utils/queries.py:217-267 | The benchmark query has one row per sector of its assets, no sector twice and no other sector, and each row's potential is non-NULL, ≥ 0 and at least that of each asset of its sector. |
| AssetTable.SortingColFor | utils/queries.py:363-368 | The three sorting labels map to their three columns; any other label leaves `sorting_col` unbound (None). |
| AssetTable.KeptRows | utils/queries.py:370-371 | With no WHERE, exactly the rows whose lower-cased `asset_type` is not `biomass` are kept. Otherwise exactly the rows the clause keeps. |
| AssetTable.DefaultLeavesOutBiomass | utils/queries.py:371 | A biomass asset, in any case, or one with NULL `asset_type`, is not in the default table. |
| AssetTable.KeptRowShown | utils/queries.py:375-402 | Every kept row is shown by a strategy-table row with its key and coalesced reductions. |
| AssetTable.ShownRowKept | utils/queries.py:375-402 | Every strategy-table row shows some kept row. |
| AssetTable.StrategyTableKeepsEmissions | utils/queries.py:383-402 | The strategy table's emissions add up to those of the kept rows. |
| AssetTable.TopRowsAreTheTop | utils/queries.py:404-407 | `ORDER BY col DESC LIMIT 100` keeps min(n, 100) of the rows, sorted descending with NULLs last, and every row left out ranks no higher than every row kept. |
| AssetTable.BenchRow | utils/queries.py:424-449 | A benchmark table row's reduction is ≥ 0: 0 for a NULL percentile, otherwise the sector form's reduction of its group. Its emissions are the group's `SUM`. |
| AssetTable.UnbenchmarkedAssetShowsZero | utils/queries.py:441-449 | A kept asset with no matching benchmark appears with reduction 0. |
| AssetTable.RanksFollowReduction | utils/queries.py:451-462 | `ROW_NUMBER() OVER (ORDER BY reduction DESC)` numbers the rows 1..n, and a smaller rank never has a smaller reduction. The outer SELECT does not return this column. |
| AssetTable.AssetReductionTable | utils/queries.py:353-490 | None for an unknown sorting label, and for sorting by the net column in the benchmark form (no such column). Otherwise at most 100 rows: the top rows of the strategy table or of the benchmark table. |
| Sentence4.Agg | utils/queries.py:314-326 | `agg` rows come from subsector keys whose share of their sector's emissions is ≥ 5%, and every such key gives a row. |
| Sentence4.TopTwoFromAgg | utils/queries.py:329-337 | A selected subsector is a row of `agg` with rank 1 or 2. |
| Sentence4.TopTwoAreLargest | utils/queries.py:329-337 | Per sector at most two rows are kept, ranked 1 and 2 in descending emissions, and no left-out row has more emissions. |
| Sentence4.Sentence4Selection | utils/queries.py:283-341 | Every selected subsector is in a non-power, included sector, has share ≥ 5%, and rank ≤ 2. |
| Sentence4.AllTopTwo | utils/queries.py:335-337 | The final `where subsector_rank <= 2` keeps a row exactly when it is among the top two of one of the sectors. |
| Sentence4.Sentence4Exactly | utils/queries.py:283-341 | A row is selected if and only if it is among the first two significant subsectors of its own sector. |
| Sentence4.Sentence4Complete | utils/queries.py:326-337 | The first and second significant subsectors of any sector, in descending emissions, are selected with ranks 1 and 2. |
| AbatementQueries.SectorAssetOf | utils/queries.py:556-559 | An asset's activity and emissions are the group `SUM`s. The emissions factor is NULL exactly when activity is NULL or 0 or emissions are NULL, and otherwise times activity gives emissions. |
| AbatementQueries.SectorAssetsKeepEmissions | utils/queries.py:529-617 | The assets' emissions add up to those of the selected subsector-year rows. |
| AbatementQueries.ErsRowCounts | utils/queries.py:635-637 | A strategy's `assets_impacted` is between 1 and its row count. Its rounded net reduction is within 0.5 of the exact sum. |
| AbatementQueries.SummarizeErsOrder | utils/queries.py:628-650 | The summary is a permutation of the per-strategy rows, ordered by net reduction descending with NULLs last. |
| DemoQueries.KeptRows | utils/queries_demo.py:139-143 | A row is kept exactly when its subsector is listed, its year is chosen, `reduction_q_type = 'asset'`, and its country is listed (when a country list is given). |
| DemoQueries.AggregatedActivity | utils/queries_demo.py:107 | `SUM(activity)` when some row of the group is temporal, otherwise `AVG(activity)`. |
| DemoQueries.AggregatedActivityOfOneRow | utils/queries_demo.py:107 | A one-row group's activity is the row's own. |
| DemoQueries.AggregatedActivityBounds | utils/queries_demo.py:107 | A non-temporal group's activity lies within its rows' bounds. A temporal group with non-negative activities has an activity at least each row's. |
| DemoQueries.EmissionsFactor | utils/queries_demo.py:110-114 | NULL exactly when emissions or aggregated activity is NULL or activity is 0. Otherwise times activity gives the summed emissions. |
| DemoQueries.Aggregates | utils/queries_demo.py:144-171 | One aggregate per group key, carrying that key and its group's emissions `SUM`. |
| DemoQueries.GroupAndOrderSpec | utils/queries_demo.py:144-172 | The grouped output is a permutation of one aggregate per key, ordered by net reduction descending with NULLs last. Its emissions add up to those of the kept rows. |
| DemoQueries.FindSectorAssetsSpec | utils/queries_demo.py:77-174 | Every output asset has a listed subsector, the chosen year, `reduction_q_type = 'asset'` and a listed country. The assets' emissions add up to the kept rows'. |
| DemoQueries.FindSectorCountrySpec | utils/queries_demo.py:176-230 | The country aggregates' emissions add up to those of the kept rows. |
| DemoQueries.SummaryRows | utils/queries_demo.py:246-260 | One `summary_by_asset` row per key, with its group's emissions sum. |
| DemoQueries.SummarizeTotalsSpec | utils/queries_demo.py:242-270 | `total_emissions` is the `SUM` of the kept rows' emissions. The four distinct counts (strategies, assets, countries, balancing authorities) equal the distinct counts over the kept rows. |
| DemoQueries.TotalsReductionOncePerAsset | utils/queries_demo.py:259-268 | A row repeating an existing `summary_by_asset` key changes neither `total_reductions` nor any distinct count. |
| DemoQueries.AssetLevelOf | utils/queries_demo.py:286-301 | An `asset_level` row carries its key and its group's emissions `SUM`. |
| DemoQueries.AssetLevelIsLargest | utils/queries_demo.py:292-294 | An asset's `MAX` at-asset and per-year reductions are NULL only when all its rows' are, and otherwise one of its rows' values and at least every other. |
| DemoQueries.AssetLevelTakesLargest | utils/queries_demo.py:293-294 | When all of an asset's rows carry the same net reduction v, `MAX` gives v: repeated rows count it once. |
| DemoQueries.AssetLevelsKeepEmissions | utils/queries_demo.py:286-301 | The `asset_level` rows' emissions add up to those of the kept rows. |
| DemoQueries.AssetsImpactedCountsAssets | utils/queries_demo.py:306 | A strategy's `assets_impacted` is exactly its number of asset-level rows. |
| DemoQueries.SummarizeErsDemoOrder | utils/queries_demo.py:302-312 | The ERS summary is a permutation of one row per strategy, ordered by total net reduction descending with NULLs last. |
| DemoQueries.ErsDemoRows | utils/queries_demo.py:302-311 | One summary row per strategy key, each computed from that strategy's asset-level rows. |

## Left out

- Rendering and I/O are not modelled. This covers DuckDB execution, file paths, Streamlit widgets and state, plotly traces, hover HTML, axis ranges and quantiles, legends, `html.escape`, and the short number formatting (`format_number_short`, `safe_format_number`).
- Floating point is not modelled: quantities are exact reals. NaN and infinities appear only where the code meets them: the `or 0` of `get_reduction_induction_json`, the NaN colour value, and the curve metric (`Curve.Float`), where a zero-activity pivot factor is ±inf or NaN.
- Text is handled as ASCII. `capitalize`, `lower` and the regex's `\d` act on ASCII letters and digits only; Unicode case mapping and Unicode digits are not modelled.
- The caller's SQL fragments (`dropdown_join`, `reduction_where_sql`, `where_sql`, `benchmark_join`) are represented by the rows they keep, not as text.
- Descriptive GROUP BY columns are dropped from the keys: names, GADM ids and names, continent and region flags, `activity_units`, `strategy_description` in the at-asset key. The model assumes they follow from the key it keeps. The GADM LEFT JOINs and the `capacity` sums are not modelled.
- `create_assets_filter_sql`, `create_country_filter_sql` and `create_table_assets_sql` are not modelled, apart from the asset label and the shared WHERE filter.
- An empty selection list is treated as an empty `IN` list. DuckDB rejects `IN ()` as a syntax error.
- In the sentence-4 `HAVING`, a zero sector total (a division by zero in DuckDB) is modelled as the subsector not qualifying.
- Ties in `ORDER BY` are broken by a stable sort; SQL leaves their order open.
- The netting SELECT selects `induced_emissions` twice. The model keeps the raw induced total and the excess as separate fields, not DuckDB's renaming of duplicate columns.
- ColorLines.DefineColorLinesCoversSubsectors: does not prove that subsector names are unique across sectors. The verifier does not unfold the 48-entry literal within the resource limit.
- DemoQueries.SummarizeErsDemoOrder: per-strategy emissions are not proved to add up to the kept rows'. Only the overall asset-level total is proved, by DemoQueries.AssetLevelsKeepEmissions.
- `get_consequetial_hover_text` is not modelled: it builds HTML strings over a pandas groupby.
- The hover, legend and annotation parts of `plot_abatement_curve` are not modelled. This covers the reference-line label placement, the `cond` defaults, and the selected-asset text trace.
- `Curve.NewRow` is not used to build `Curve.Frame`. The frame's zero row is the typed `ZeroRow`, which gives `activity_cum`, activity and metric 0, the first data row's colour, and id 0 when the hover id is the numeric `asset_id` (NaN when it is a name). `NewRow` states the column-kind rule on its own.
- The zero row's id kind (`Curve.ZeroRow`) is read from the first data row's id, numeric `asset_id` or a name. This stands in for the pandas column dtype.
- Curve.PivotRows: the index columns other than the colouring value are taken to be non-NULL strings. pandas would also drop assets whose `iso3_country`, `country_name`, region, `sector` or `subsector` is NaN.

## Findings

| source | as written | input that shows it | evidently intended | confidence | as-written member | corrected member |
|---|---|---|---|---|---|---|
| utils/utils.py:679-681 | Each trace from the second data row on is drawn with `y=[m[i-1], m[i]]` and `line_shape='hv'`. The fill over row i's activity interval is at the previous row's height. | Two sorted rows with metrics 5 and 3 and activity 1 each: the second interval [1, 2] is filled at height 5. | Each row's interval is filled at its own metric, as the first trace (655-657) already does. | medium, not executed | Curve.SegmentsAsWrittenCounterexample | Curve.SegmentsTile |
| tabs/tab05_abatement_curve_demo.py:147 | The id is read from the first `\((\d+)\)` match in the label `iso3: name (id)`. | Asset 123 named `Plant (7)` in USA: the label `USA: Plant (7) (123)` gives 7. | The id is read from the trailing `(digits)` group that utils/queries_demo.py:28 appends. | high, not executed | SqlText.ParseLabelAsWrittenCounterexample | SqlText.ParseLabelRoundTrip |
