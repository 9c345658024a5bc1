/**
 * The abatement-curve queries of utils/queries.py: the per-asset rows of
 * `find_sector_assets_sql` (their activity, emissions and emissions factor)
 * and the per-strategy summary of `summarize_ers_sql`.
 */
module AbatementQueries {
  import opened Wrappers
  import opened Seqs
  import opened Sql
  import opened Assets

  /** `subsector = '…' AND year = …`. */
  function Selected(subsector: string, year: int): AssetRow -> bool {
    (r: AssetRow) => r.subsector == subsector && r.year == year
  }

  /** The grouping columns that matter here; the descriptive ones are taken as fixed by the asset. */
  datatype AssetKey = AssetKey(year: int, assetId: nat, assetName: string, iso3: string, sector: string,
                               subsector: string, strategyName: Option<string>,
                               reducedAtAsset: Option<real>, reducedPerYear: Option<real>)

  function AssetKeyOf(r: AssetRow): AssetKey {
    AssetKey(r.year, r.assetId, r.assetName, r.iso3, r.sector, r.subsector, r.strategyName,
             r.reducedAtAsset, r.reducedPerYear)
  }

  datatype SectorAsset = SectorAsset(key: AssetKey, activity: Option<real>, emissions: Option<real>,
                                     emissionsFactor: Option<real>)

  /** One group: summed activity and emissions, and their ratio with NULLIF on the activity. */
  function SectorAssetOf(k: AssetKey, rows: seq<AssetRow>): (a: SectorAsset)
    ensures a.activity == SqlSum(Group(rows, AssetKeyOf, k), ActivityCol)
    ensures a.emissions == SqlSum(Group(rows, AssetKeyOf, k), Emissions)
    ensures a.emissionsFactor.None? <==> a.activity.None? || a.activity == Some(0.0) || a.emissions.None?
    ensures a.emissionsFactor.Some? ==> a.emissionsFactor.value * a.activity.value == a.emissions.value
  {
    var g := Group(rows, AssetKeyOf, k);
    var act := SqlSum(g, ActivityCol);
    var em := SqlSum(g, Emissions);
    SectorAsset(k, act, em, DivideOrNull(em, act))
  }

  function SectorAssetRows(ks: seq<AssetKey>, rows: seq<AssetRow>): (out: seq<SectorAsset>)
    ensures |out| == |ks|
    ensures forall i :: 0 <= i < |ks| ==> out[i] == SectorAssetOf(ks[i], rows)
  {
    if ks == [] then [] else [SectorAssetOf(ks[0], rows)] + SectorAssetRows(ks[1..], rows)
  }

  /** `find_sector_assets_sql` (queries.py:529-601). */
  function FindSectorAssets(rows: seq<AssetRow>, subsector: string, year: int): seq<SectorAsset> {
    var kept := Filter(rows, Selected(subsector, year));
    SectorAssetRows(Keys(kept, AssetKeyOf), kept)
  }

  function SaEmissions(a: SectorAsset): Option<real> { a.emissions }

  /** The assets' emissions add up to those of the selected rows. */
  lemma SectorAssetsKeepEmissions(rows: seq<AssetRow>, subsector: string, year: int)
    ensures SqlSum(FindSectorAssets(rows, subsector, year), SaEmissions)
         == SqlSum(Filter(rows, Selected(subsector, year)), Emissions)
  {
    GroupsKeepEmissions(Filter(rows, Selected(subsector, year)));
  }

  lemma GroupsKeepEmissions(kept: seq<AssetRow>)
    ensures SqlSum(SectorAssetRows(Keys(kept, AssetKeyOf), kept), SaEmissions) == SqlSum(kept, Emissions)
  {
    var ks := Keys(kept, AssetKeyOf);
    var out := SectorAssetRows(ks, kept);
    var gs := GroupSum(kept, AssetKeyOf, Emissions);
    forall i | 0 <= i < |out| ensures SaEmissions(out[i]) == gs(ks[i]) {
      assert out[i] == SectorAssetOf(ks[i], kept);
    }
    SqlSumPointwise(out, SaEmissions, ks, gs);
    SqlSumOfGroupSums(ks, kept, AssetKeyOf, Emissions);
  }

  // ---------------------------------------------------------------------
  // summarize_ers_sql (queries.py:628-650).

  datatype StrategyKey = StrategyKey(name: Option<string>, description: Option<string>, mechanism: Option<string>)

  function StrategyKeyOf(r: AssetRow): StrategyKey {
    StrategyKey(r.strategyName, r.strategyDescription, r.mechanism)
  }

  datatype ErsSummary = ErsSummary(key: StrategyKey, assetsImpacted: nat,
                                   totalAssetReduction: Option<int>, totalNetReduction: Option<int>)

  /** One strategy: COUNT(DISTINCT asset_id) and the two rounded sums. */
  function ErsRow(k: StrategyKey, rows: seq<AssetRow>): ErsSummary {
    var g := Group(rows, StrategyKeyOf, k);
    ErsSummary(k, CountDistinct(g, AssetIdOf), RoundOpt(SqlSum(g, ReducedAtAsset)), RoundOpt(SqlSum(g, ReducedPerYear)))
  }

  function ErsRows(ks: seq<StrategyKey>, rows: seq<AssetRow>): (out: seq<ErsSummary>)
    ensures |out| == |ks|
    ensures forall i :: 0 <= i < |ks| ==> out[i] == ErsRow(ks[i], rows)
  {
    if ks == [] then [] else [ErsRow(ks[0], rows)] + ErsRows(ks[1..], rows)
  }

  /** The ordering column as a real. */
  function NetTotal(e: ErsSummary): Option<real> {
    if e.totalNetReduction.None? then None else Some(e.totalNetReduction.value as real)
  }

  function SummarizeErs(rows: seq<AssetRow>, subsector: string, year: int): seq<ErsSummary> {
    var kept := Filter(rows, Selected(subsector, year));
    SortBy(ErsRows(Keys(kept, StrategyKeyOf), kept), DescNullsLast(NetTotal))
  }

  /** A strategy that occurs touches at least one asset and no more assets than it has rows; its totals are the rounded sums. */
  lemma ErsRowCounts(k: StrategyKey, rows: seq<AssetRow>)
    requires exists i :: 0 <= i < |rows| && StrategyKeyOf(rows[i]) == k
    ensures 1 <= ErsRow(k, rows).assetsImpacted <= |Group(rows, StrategyKeyOf, k)|
    ensures var t := SqlSum(Group(rows, StrategyKeyOf, k), ReducedPerYear);
      t.Some? ==> t.value - 0.5 <= ErsRow(k, rows).totalNetReduction.value as real <= t.value + 0.5
  {
    var i :| 0 <= i < |rows| && StrategyKeyOf(rows[i]) == k;
    var g := Group(rows, StrategyKeyOf, k);
    assert rows[i] in g;
    var j :| 0 <= j < |g| && g[j] == rows[i];
    assert AssetIdOf(g[j]).Some?;
  }

  /**
   * The summary has one row per strategy of the selected rows, in
   * descending order of total net reduction with NULLs last.
   */
  lemma SummarizeErsOrder(rows: seq<AssetRow>, subsector: string, year: int)
    ensures var kept := Filter(rows, Selected(subsector, year));
      multiset(SummarizeErs(rows, subsector, year)) == multiset(ErsRows(Keys(kept, StrategyKeyOf), kept))
    ensures forall i, j ::
      (0 <= i < j < |SummarizeErs(rows, subsector, year)| && NetTotal(SummarizeErs(rows, subsector, year)[j]).Some?) ==>
      (NetTotal(SummarizeErs(rows, subsector, year)[i]).Some? &&
       NetTotal(SummarizeErs(rows, subsector, year)[i]).value >= NetTotal(SummarizeErs(rows, subsector, year)[j]).value)
  {
    var kept := Filter(rows, Selected(subsector, year));
    DescNullsLastIsTotalPreorder(NetTotal);
    SortBySorted(ErsRows(Keys(kept, StrategyKeyOf), kept), DescNullsLast(NetTotal));
    SortedDescNullsLast(SummarizeErs(rows, subsector, year), NetTotal);
  }
}
