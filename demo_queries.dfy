/**
 * The abatement-curve queries of utils/queries_demo.py: the shared WHERE
 * clause, the activity and emissions-factor aggregation of
 * `find_sector_assets_sql` / `find_sector_country_sql`, the totals of
 * `summarize_totals_sql` and the per-strategy summary of
 * `summarize_ers_sql`.
 */
module DemoQueries {
  import opened Wrappers
  import opened Seqs
  import opened Sql
  import opened Assets

  /** The choices every demo query is built from; countries is None for the query that takes none. */
  datatype Selection = Selection(subsectors: seq<string>, year: int, countries: Option<seq<string>>)

  /** `subsector IN (…) AND year = … AND reduction_q_type = 'asset' [AND iso3_country IN (…)]`. */
  function Kept(sel: Selection): AssetRow -> bool {
    (r: AssetRow) =>
      && r.subsector in sel.subsectors
      && r.year == sel.year
      && r.reductionQType == "asset"
      && (sel.countries.None? || r.iso3 in sel.countries.value)
  }

  /** The rows the WHERE clause keeps, in table order. */
  function KeptRows(rows: seq<AssetRow>, sel: Selection): (kept: seq<AssetRow>)
    ensures forall r :: r in kept <==>
      (&& r in rows
       && r.subsector in sel.subsectors
       && r.year == sel.year
       && r.reductionQType == "asset"
       && (sel.countries.None? || r.iso3 in sel.countries.value))
  {
    Filter(rows, Kept(sel))
  }

  // ---------------------------------------------------------------------
  // Activity and emissions factor of one group.

  /** `CASE WHEN BOOL_OR(activity_is_temporal) THEN SUM(activity) ELSE AVG(activity) END`. */
  function AggregatedActivity(g: seq<AssetRow>): (a: Option<real>)
    ensures (exists i :: 0 <= i < |g| && Temporal(g[i]) == Some(true)) ==> a == SqlSum(g, ActivityCol)
    ensures (forall i :: 0 <= i < |g| ==> Temporal(g[i]) != Some(true)) ==> a == SqlAvg(g, ActivityCol)
  {
    if BoolOr(g, Temporal) == Some(true) then SqlSum(g, ActivityCol) else SqlAvg(g, ActivityCol)
  }

  /** A group of one row reports that row's activity, whether it is temporal or not. */
  lemma AggregatedActivityOfOneRow(r: AssetRow)
    ensures AggregatedActivity([r]) == r.activity
  {
    assert [r][1..] == [];
    assert CountPresent([r], ActivityCol) == (if r.activity.Some? then 1 else 0);
    assert SumPresent([r], ActivityCol) == OrZero(r.activity);
  }

  /**
   * A stock (non-temporal) activity is averaged: it stays within any bounds
   * of the rows' values. A temporal one is added up: with no negative value
   * it is at least every row's value.
   */
  lemma AggregatedActivityBounds(g: seq<AssetRow>, lo: real, hi: real)
    requires forall i :: 0 <= i < |g| && g[i].activity.Some? ==> lo <= g[i].activity.value <= hi
    ensures (forall i :: 0 <= i < |g| ==> Temporal(g[i]) != Some(true)) ==>
      (AggregatedActivity(g).Some? ==> lo <= AggregatedActivity(g).value <= hi)
    ensures (0.0 <= lo && exists i :: 0 <= i < |g| && Temporal(g[i]) == Some(true)) ==>
      forall i :: 0 <= i < |g| && g[i].activity.Some? ==>
        AggregatedActivity(g).Some? && g[i].activity.value <= AggregatedActivity(g).value
  {
    SqlAvgBetween(g, ActivityCol, lo, hi);
    CountPresentZero(g, ActivityCol);
    if 0.0 <= lo {
      forall i | 0 <= i < |g| && g[i].activity.Some?
        ensures SumPresent(g, ActivityCol) >= g[i].activity.value
      {
        SumPresentAtLeast(g, ActivityCol, i);
      }
    }
  }

  /** `SUM(emissions_quantity) / NULLIF(<aggregated activity>, 0)`. */
  function EmissionsFactor(g: seq<AssetRow>): (ef: Option<real>)
    ensures ef.None? <==>
      SqlSum(g, Emissions).None? || AggregatedActivity(g).None? || AggregatedActivity(g) == Some(0.0)
    ensures ef.Some? ==> ef.value * AggregatedActivity(g).value == SqlSum(g, Emissions).value
  {
    DivideOrNull(SqlSum(g, Emissions), AggregatedActivity(g))
  }

  /** One output row of the two find queries, with the group's key. */
  datatype Aggregate<K> = Aggregate(key: K, activity: Option<real>, emissions: Option<real>,
                                    emissionsFactor: Option<real>)

  function AggEmissions<K>(a: Aggregate<K>): Option<real> { a.emissions }

  /** The aggregate of the group of key k. */
  function AggregateOf<K(==)>(rows: seq<AssetRow>, keyOf: AssetRow -> K, k: K): Aggregate<K> {
    var g := Group(rows, keyOf, k);
    Aggregate(k, AggregatedActivity(g), SqlSum(g, Emissions), EmissionsFactor(g))
  }

  function Aggregates<K(==)>(ks: seq<K>, rows: seq<AssetRow>, keyOf: AssetRow -> K): (out: seq<Aggregate<K>>)
    ensures |out| == |ks|
    ensures forall i :: 0 <= i < |ks| ==> out[i].key == ks[i]
    ensures forall i :: 0 <= i < |ks| ==> out[i].emissions == GroupSum(rows, keyOf, Emissions)(ks[i])
  {
    if ks == [] then [] else [AggregateOf(rows, keyOf, ks[0])] + Aggregates(ks[1..], rows, keyOf)
  }

  /** The ORDER BY column of an aggregate, read from its key. */
  function ByKey<K>(tept: K -> Option<real>): Aggregate<K> -> Option<real> {
    (a: Aggregate<K>) => tept(a.key)
  }

  /** `GROUP BY … ORDER BY total_emissions_reduced_per_year DESC`. */
  function GroupAndOrder<K(==)>(kept: seq<AssetRow>, keyOf: AssetRow -> K, tept: K -> Option<real>): seq<Aggregate<K>> {
    SortBy(Aggregates(Keys(kept, keyOf), kept, keyOf), DescNullsLast(ByKey(tept)))
  }

  /**
   * The output has one row per group of the kept rows, in descending order
   * of the net reduction with NULLs last, and its emissions add up to those
   * of the kept rows.
   */
  lemma GroupAndOrderSpec<K(!new)>(kept: seq<AssetRow>, keyOf: AssetRow -> K, tept: K -> Option<real>)
    ensures multiset(GroupAndOrder(kept, keyOf, tept)) == multiset(Aggregates(Keys(kept, keyOf), kept, keyOf))
    ensures forall i, j ::
      (0 <= i < j < |GroupAndOrder(kept, keyOf, tept)| && tept(GroupAndOrder(kept, keyOf, tept)[j].key).Some?) ==>
      (tept(GroupAndOrder(kept, keyOf, tept)[i].key).Some? &&
       tept(GroupAndOrder(kept, keyOf, tept)[i].key).value >= tept(GroupAndOrder(kept, keyOf, tept)[j].key).value)
    ensures SqlSum(GroupAndOrder(kept, keyOf, tept), AggEmissions) == SqlSum(kept, Emissions)
  {
    var ks := Keys(kept, keyOf);
    var unsorted := Aggregates(ks, kept, keyOf);
    var out := GroupAndOrder(kept, keyOf, tept);
    DescNullsLastIsTotalPreorder(ByKey(tept));
    SortBySorted(unsorted, DescNullsLast(ByKey(tept)));
    SortedDescNullsLast(out, ByKey(tept));
    SqlSumPermutation(out, unsorted, AggEmissions);
    SqlSumPointwise(unsorted, AggEmissions, ks, GroupSum(kept, keyOf, Emissions));
    SqlSumOfGroupSums(ks, kept, keyOf, Emissions);
  }

  /** Each row of a reordering of the aggregates of ks has its key in ks. */
  lemma AggregateKeyOccurs<K(!new)>(ks: seq<K>, kept: seq<AssetRow>, keyOf: AssetRow -> K, out: seq<Aggregate<K>>, i: nat)
    requires multiset(out) == multiset(Aggregates(ks, kept, keyOf))
    requires i < |out|
    ensures out[i].key in ks
  {
    assert out[i] in multiset(Aggregates(ks, kept, keyOf));
    var j :| 0 <= j < |ks| && Aggregates(ks, kept, keyOf)[j] == out[i];
  }

  // ---------------------------------------------------------------------
  // find_sector_assets_sql (queries_demo.py:77-174).

  /** The grouping columns that matter here; the descriptive ones are taken as fixed by the asset. */
  datatype AssetKey = AssetKey(year: int, assetId: nat, assetName: string, assetType: Option<string>,
                               iso3: string, countryName: string, baRegion: Option<string>,
                               sector: string, subsector: string, reductionQType: string,
                               strategyName: Option<string>, reducedAtAsset: Option<real>,
                               reducedPerYear: Option<real>)

  function AssetKeyOf(r: AssetRow): AssetKey {
    AssetKey(r.year, r.assetId, r.assetName, r.assetType, r.iso3, r.countryName, r.baRegion, r.sector,
             r.subsector, r.reductionQType, r.strategyName, r.reducedAtAsset, r.reducedPerYear)
  }

  function AssetTept(k: AssetKey): Option<real> { k.reducedPerYear }

  function FindSectorAssets(rows: seq<AssetRow>, subsectors: seq<string>, year: int, countries: seq<string>)
    : seq<Aggregate<AssetKey>>
  {
    GroupAndOrder(KeptRows(rows, Selection(subsectors, year, Some(countries))), AssetKeyOf, AssetTept)
  }

  /** Every asset row comes from a kept group and the curve's emissions are those of the kept rows. */
  lemma FindSectorAssetsSpec(rows: seq<AssetRow>, subsectors: seq<string>, year: int, countries: seq<string>)
    ensures var out := FindSectorAssets(rows, subsectors, year, countries);
      forall i :: 0 <= i < |out| ==>
        && out[i].key.subsector in subsectors && out[i].key.year == year
        && out[i].key.reductionQType == "asset" && out[i].key.iso3 in countries
    ensures SqlSum(FindSectorAssets(rows, subsectors, year, countries), AggEmissions)
         == SqlSum(KeptRows(rows, Selection(subsectors, year, Some(countries))), Emissions)
  {
    var kept := KeptRows(rows, Selection(subsectors, year, Some(countries)));
    GroupAndOrderSpec(kept, AssetKeyOf, AssetTept);
    AssetGroupsSelected(kept, GroupAndOrder(kept, AssetKeyOf, AssetTept), subsectors, year, countries);
  }

  /** A reordering of the asset groups of selected rows holds only selected keys. */
  lemma AssetGroupsSelected(kept: seq<AssetRow>, out: seq<Aggregate<AssetKey>>,
                            subsectors: seq<string>, year: int, countries: seq<string>)
    requires forall r :: r in kept ==>
      r.subsector in subsectors && r.year == year && r.reductionQType == "asset" && r.iso3 in countries
    requires multiset(out) == multiset(Aggregates(Keys(kept, AssetKeyOf), kept, AssetKeyOf))
    ensures forall i :: 0 <= i < |out| ==>
      && out[i].key.subsector in subsectors && out[i].key.year == year
      && out[i].key.reductionQType == "asset" && out[i].key.iso3 in countries
  {
    var ks := Keys(kept, AssetKeyOf);
    forall i | 0 <= i < |out|
      ensures out[i].key.subsector in subsectors && out[i].key.year == year
      ensures out[i].key.reductionQType == "asset" && out[i].key.iso3 in countries
    {
      AggregateKeyOccurs(ks, kept, AssetKeyOf, out, i);
      var m :| 0 <= m < |kept| && AssetKeyOf(kept[m]) == out[i].key;
      assert kept[m] in kept;
    }
  }

  // ---------------------------------------------------------------------
  // find_sector_country_sql (queries_demo.py:176-230): no country filter.

  datatype CountryKey = CountryKey(year: int, iso3: string, countryName: string, baRegion: Option<string>,
                                   sector: string, subsector: string, reductionQType: string,
                                   strategyName: Option<string>, reducedAtAsset: Option<real>,
                                   reducedPerYear: Option<real>)

  function CountryKeyOf(r: AssetRow): CountryKey {
    CountryKey(r.year, r.iso3, r.countryName, r.baRegion, r.sector, r.subsector, r.reductionQType,
               r.strategyName, r.reducedAtAsset, r.reducedPerYear)
  }

  function CountryTept(k: CountryKey): Option<real> { k.reducedPerYear }

  function FindSectorCountry(rows: seq<AssetRow>, subsectors: seq<string>, year: int): seq<Aggregate<CountryKey>> {
    GroupAndOrder(KeptRows(rows, Selection(subsectors, year, None)), CountryKeyOf, CountryTept)
  }

  /** The per-country rows keep every country's emissions: their sum is that of all selected rows. */
  lemma FindSectorCountrySpec(rows: seq<AssetRow>, subsectors: seq<string>, year: int)
    ensures SqlSum(FindSectorCountry(rows, subsectors, year), AggEmissions)
         == SqlSum(KeptRows(rows, Selection(subsectors, year, None)), Emissions)
  {
    GroupAndOrderSpec(KeptRows(rows, Selection(subsectors, year, None)), CountryKeyOf, CountryTept);
  }

  // ---------------------------------------------------------------------
  // summarize_totals_sql (queries_demo.py:242-270).

  datatype TotalsKey = TotalsKey(iso3: string, baRegion: Option<string>, assetId: nat,
                                 strategyName: Option<string>, reducedPerYear: Option<real>)

  function TotalsKeyOf(r: AssetRow): TotalsKey {
    TotalsKey(r.iso3, r.baRegion, r.assetId, r.strategyName, r.reducedPerYear)
  }

  /** A row of the `summary_by_asset` CTE. */
  datatype SummaryByAsset = SummaryByAsset(key: TotalsKey, emissionsSum: Option<real>)

  function SummaryRows(ks: seq<TotalsKey>, kept: seq<AssetRow>): (out: seq<SummaryByAsset>)
    ensures |out| == |ks|
    ensures forall i :: 0 <= i < |ks| ==> out[i].key == ks[i]
    ensures forall i :: 0 <= i < |ks| ==> out[i].emissionsSum == GroupSum(kept, TotalsKeyOf, Emissions)(ks[i])
  {
    if ks == [] then []
    else [SummaryByAsset(ks[0], SqlSum(Group(kept, TotalsKeyOf, ks[0]), Emissions))] + SummaryRows(ks[1..], kept)
  }

  function SbStrategy(s: SummaryByAsset): Option<string> { s.key.strategyName }
  function SbEmissions(s: SummaryByAsset): Option<real> { s.emissionsSum }
  function SbReduction(s: SummaryByAsset): Option<real> { s.key.reducedPerYear }
  function SbAssetId(s: SummaryByAsset): Option<nat> { Some(s.key.assetId) }
  function SbCountry(s: SummaryByAsset): Option<string> { Some(s.key.iso3) }
  function SbBa(s: SummaryByAsset): Option<string> { s.key.baRegion }

  function StrategyOf(r: AssetRow): Option<string> { r.strategyName }
  function CountryOf(r: AssetRow): Option<string> { Some(r.iso3) }
  function BaOf(r: AssetRow): Option<string> { r.baRegion }

  datatype Totals = Totals(totalErs: nat, totalEmissions: Option<real>, totalReductions: Option<real>,
                           totalAssets: nat, totalCountries: nat, totalBa: nat)

  /** The outer SELECT over summary_by_asset, for the kept rows. */
  function TotalsOf(kept: seq<AssetRow>): Totals {
    var sb := SummaryRows(Keys(kept, TotalsKeyOf), kept);
    Totals(CountDistinct(sb, SbStrategy), SqlSum(sb, SbEmissions), SqlSum(sb, SbReduction),
           CountDistinct(sb, SbAssetId), CountDistinct(sb, SbCountry), CountDistinct(sb, SbBa))
  }

  function SummarizeTotals(rows: seq<AssetRow>, subsectors: seq<string>, year: int, countries: seq<string>): Totals {
    TotalsOf(KeptRows(rows, Selection(subsectors, year, Some(countries))))
  }

  /** A value occurs in a column of summary_by_asset exactly when it occurs in that column of the kept rows. */
  lemma SummaryHasValue<V>(kept: seq<AssetRow>, ks: seq<TotalsKey>, sb: seq<SummaryByAsset>,
                           p: SummaryByAsset -> Option<V>, f: AssetRow -> Option<V>, x: V)
    requires forall i :: 0 <= i < |kept| ==> TotalsKeyOf(kept[i]) in ks
    requires forall k :: k in ks ==> exists i :: 0 <= i < |kept| && TotalsKeyOf(kept[i]) == k
    requires |sb| == |ks| && forall j :: 0 <= j < |sb| ==> sb[j].key == ks[j]
    requires forall r: AssetRow :: f(r) == p(SummaryByAsset(TotalsKeyOf(r), None))
    requires forall k: TotalsKey, e: Option<real> :: p(SummaryByAsset(k, e)) == p(SummaryByAsset(k, None))
    ensures HasValue(sb, p, x) <==> HasValue(kept, f, x)
  {
    if HasValue(sb, p, x) {
      SummaryValueFromRow(kept, ks, sb, p, f, x);
    }
    if HasValue(kept, f, x) {
      RowValueInSummary(kept, ks, sb, p, f, x);
    }
  }

  lemma SummaryValueFromRow<V>(kept: seq<AssetRow>, ks: seq<TotalsKey>, sb: seq<SummaryByAsset>,
                               p: SummaryByAsset -> Option<V>, f: AssetRow -> Option<V>, x: V)
    requires forall k :: k in ks ==> exists i :: 0 <= i < |kept| && TotalsKeyOf(kept[i]) == k
    requires |sb| == |ks| && forall j :: 0 <= j < |sb| ==> sb[j].key == ks[j]
    requires forall r: AssetRow :: f(r) == p(SummaryByAsset(TotalsKeyOf(r), None))
    requires forall k: TotalsKey, e: Option<real> :: p(SummaryByAsset(k, e)) == p(SummaryByAsset(k, None))
    requires HasValue(sb, p, x)
    ensures HasValue(kept, f, x)
  {
    var j :| 0 <= j < |sb| && p(sb[j]) == Some(x);
    assert ks[j] in ks;
    var i :| 0 <= i < |kept| && TotalsKeyOf(kept[i]) == ks[j];
    assert sb[j] == SummaryByAsset(ks[j], sb[j].emissionsSum);
  }

  lemma RowValueInSummary<V>(kept: seq<AssetRow>, ks: seq<TotalsKey>, sb: seq<SummaryByAsset>,
                             p: SummaryByAsset -> Option<V>, f: AssetRow -> Option<V>, x: V)
    requires forall i :: 0 <= i < |kept| ==> TotalsKeyOf(kept[i]) in ks
    requires |sb| == |ks| && forall j :: 0 <= j < |sb| ==> sb[j].key == ks[j]
    requires forall r: AssetRow :: f(r) == p(SummaryByAsset(TotalsKeyOf(r), None))
    requires forall k: TotalsKey, e: Option<real> :: p(SummaryByAsset(k, e)) == p(SummaryByAsset(k, None))
    requires HasValue(kept, f, x)
    ensures HasValue(sb, p, x)
  {
    var i :| 0 <= i < |kept| && f(kept[i]) == Some(x);
    var j :| 0 <= j < |ks| && ks[j] == TotalsKeyOf(kept[i]);
    assert sb[j] == SummaryByAsset(ks[j], sb[j].emissionsSum);
  }

  /**
   * The totals count the strategies, assets, countries and balancing
   * authorities of the kept rows, and total_emissions is the sum of
   * their emissions: the per-asset sums lose nothing.
   */
  lemma SummarizeTotalsSpec(rows: seq<AssetRow>, subsectors: seq<string>, year: int, countries: seq<string>)
    ensures var kept := KeptRows(rows, Selection(subsectors, year, Some(countries)));
      var t := SummarizeTotals(rows, subsectors, year, countries);
      && t.totalEmissions == SqlSum(kept, Emissions)
      && t.totalErs == CountDistinct(kept, StrategyOf)
      && t.totalAssets == CountDistinct(kept, AssetIdOf)
      && t.totalCountries == CountDistinct(kept, CountryOf)
      && t.totalBa == CountDistinct(kept, BaOf)
  {
    var kept := KeptRows(rows, Selection(subsectors, year, Some(countries)));
    var ks := Keys(kept, TotalsKeyOf);
    var sb := SummaryRows(ks, kept);
    SqlSumPointwise(sb, SbEmissions, ks, GroupSum(kept, TotalsKeyOf, Emissions));
    SqlSumOfGroupSums(ks, kept, TotalsKeyOf, Emissions);
    forall x ensures HasValue(sb, SbStrategy, x) <==> HasValue(kept, StrategyOf, x) {
      SummaryHasValue(kept, ks, sb, SbStrategy, StrategyOf, x);
    }
    CountDistinctSameValues(sb, SbStrategy, kept, StrategyOf);
    forall x: nat ensures HasValue(sb, SbAssetId, x) <==> HasValue(kept, AssetIdOf, x) {
      SummaryHasValue(kept, ks, sb, SbAssetId, AssetIdOf, x);
    }
    CountDistinctSameValues(sb, SbAssetId, kept, AssetIdOf);
    forall x ensures HasValue(sb, SbCountry, x) <==> HasValue(kept, CountryOf, x) {
      SummaryHasValue(kept, ks, sb, SbCountry, CountryOf, x);
    }
    CountDistinctSameValues(sb, SbCountry, kept, CountryOf);
    forall x ensures HasValue(sb, SbBa, x) <==> HasValue(kept, BaOf, x) {
      SummaryHasValue(kept, ks, sb, SbBa, BaOf, x);
    }
    CountDistinctSameValues(sb, SbBa, kept, BaOf);
  }

  /**
   * total_reductions adds each (country, authority, asset, strategy,
   * reduction) combination once: another row repeating one (another month,
   * say) changes no total but total_emissions.
   */
  lemma TotalsReductionOncePerAsset(kept: seq<AssetRow>, r: AssetRow)
    requires exists r0 :: r0 in kept && TotalsKeyOf(r0) == TotalsKeyOf(r)
    ensures TotalsOf(kept + [r]).totalReductions == TotalsOf(kept).totalReductions
    ensures TotalsOf(kept + [r]).totalAssets == TotalsOf(kept).totalAssets
    ensures TotalsOf(kept + [r]).totalCountries == TotalsOf(kept).totalCountries
    ensures TotalsOf(kept + [r]).totalErs == TotalsOf(kept).totalErs
    ensures TotalsOf(kept + [r]).totalBa == TotalsOf(kept).totalBa
  {
    RepeatedKeyKeepsKeys(kept, r);
    SameKeysSameTotalsOf(kept + [r], kept);
  }

  /** Kept rows with the same summary keys give the same totals but total_emissions. */
  lemma SameKeysSameTotalsOf(k1: seq<AssetRow>, k2: seq<AssetRow>)
    requires Keys(k1, TotalsKeyOf) == Keys(k2, TotalsKeyOf)
    ensures TotalsOf(k1).totalReductions == TotalsOf(k2).totalReductions
    ensures TotalsOf(k1).totalAssets == TotalsOf(k2).totalAssets
    ensures TotalsOf(k1).totalCountries == TotalsOf(k2).totalCountries
    ensures TotalsOf(k1).totalErs == TotalsOf(k2).totalErs
    ensures TotalsOf(k1).totalBa == TotalsOf(k2).totalBa
  {
    var ks := Keys(k1, TotalsKeyOf);
    var a, b := SummaryRows(ks, k1), SummaryRows(ks, k2);
    assert TotalsOf(k1) == Totals(CountDistinct(a, SbStrategy), SqlSum(a, SbEmissions), SqlSum(a, SbReduction),
                                  CountDistinct(a, SbAssetId), CountDistinct(a, SbCountry), CountDistinct(a, SbBa));
    assert TotalsOf(k2) == Totals(CountDistinct(b, SbStrategy), SqlSum(b, SbEmissions), SqlSum(b, SbReduction),
                                  CountDistinct(b, SbAssetId), CountDistinct(b, SbCountry), CountDistinct(b, SbBa));
    SameKeysSameTotals(a, b);
  }

  /** A row whose key is already present adds no summary_by_asset row. */
  lemma RepeatedKeyKeepsKeys(kept: seq<AssetRow>, r: AssetRow)
    requires exists r0 :: r0 in kept && TotalsKeyOf(r0) == TotalsKeyOf(r)
    ensures Keys(kept + [r], TotalsKeyOf) == Keys(kept, TotalsKeyOf)
  {
    var r0 :| r0 in kept && TotalsKeyOf(r0) == TotalsKeyOf(r);
    MapAppend(kept, [r], TotalsKeyOf);
    var i :| 0 <= i < |kept| && kept[i] == r0;
    assert Map(kept, TotalsKeyOf)[i] == TotalsKeyOf(r);
    DistinctAppendPresent(Map(kept, TotalsKeyOf), Map([r], TotalsKeyOf));
  }

  /** Summary rows with the same keys give the same totals, whatever their emissions. */
  lemma SameKeysSameTotals(a: seq<SummaryByAsset>, b: seq<SummaryByAsset>)
    requires |a| == |b|
    requires forall j :: 0 <= j < |a| ==> a[j].key == b[j].key
    ensures SqlSum(a, SbReduction) == SqlSum(b, SbReduction)
    ensures CountDistinct(a, SbAssetId) == CountDistinct(b, SbAssetId)
    ensures CountDistinct(a, SbCountry) == CountDistinct(b, SbCountry)
    ensures CountDistinct(a, SbStrategy) == CountDistinct(b, SbStrategy)
    ensures CountDistinct(a, SbBa) == CountDistinct(b, SbBa)
  {
    SqlSumPointwise(a, SbReduction, b, SbReduction);
    CountDistinctPointwise(a, SbAssetId, b, SbAssetId);
    CountDistinctPointwise(a, SbCountry, b, SbCountry);
    CountDistinctPointwise(a, SbStrategy, b, SbStrategy);
    CountDistinctPointwise(a, SbBa, b, SbBa);
  }

  // ---------------------------------------------------------------------
  // summarize_ers_sql (queries_demo.py:282-315).

  /** The GROUP BY of the `asset_level` CTE. */
  datatype LevelKey = LevelKey(assetId: nat, subsector: string, strategyName: Option<string>,
                               strategyDescription: Option<string>, mechanism: Option<string>)

  function LevelKeyOf(r: AssetRow): LevelKey {
    LevelKey(r.assetId, r.subsector, r.strategyName, r.strategyDescription, r.mechanism)
  }

  /** A row of `asset_level`: the asset's summed emissions and the largest of each reduction. */
  datatype AssetLevel = AssetLevel(key: LevelKey, emissions: Option<real>, reducedAtAsset: Option<real>,
                                   reducedPerYear: Option<real>)

  function AssetLevelOf(kept: seq<AssetRow>, k: LevelKey): (a: AssetLevel)
    ensures a.key == k
    ensures a.emissions == GroupSum(kept, LevelKeyOf, Emissions)(k)
  {
    var g := Group(kept, LevelKeyOf, k);
    AssetLevel(k, SqlSum(g, Emissions), SqlMax(g, ReducedAtAsset), SqlMax(g, ReducedPerYear))
  }

  function AssetLevels(ks: seq<LevelKey>, kept: seq<AssetRow>): (out: seq<AssetLevel>)
    ensures |out| == |ks|
    ensures forall i :: 0 <= i < |ks| ==> out[i] == AssetLevelOf(kept, ks[i])
  {
    if ks == [] then [] else [AssetLevelOf(kept, ks[0])] + AssetLevels(ks[1..], kept)
  }

  function LevelKeyOfLevel(a: AssetLevel): LevelKey { a.key }
  function LevelId(a: AssetLevel): nat { a.key.assetId }
  function LevelAssetId(a: AssetLevel): Option<nat> { Some(a.key.assetId) }
  function LevelEmissions(a: AssetLevel): Option<real> { a.emissions }
  function LevelAtAsset(a: AssetLevel): Option<real> { a.reducedAtAsset }
  function LevelPerYear(a: AssetLevel): Option<real> { a.reducedPerYear }

  /**
   * An asset's per-year and at-asset reductions are each the largest value
   * its rows carry: NULL only when every row's is NULL, otherwise one of the
   * rows' values and at least every other.
   */
  lemma AssetLevelIsLargest(kept: seq<AssetRow>, k: LevelKey)
    ensures var g := Group(kept, LevelKeyOf, k);
      var a := AssetLevelOf(kept, k);
      && (a.reducedPerYear.None? <==> forall r :: r in g ==> r.reducedPerYear.None?)
      && (a.reducedPerYear.Some? ==> exists r :: r in g && r.reducedPerYear == a.reducedPerYear)
      && (forall r :: r in g && r.reducedPerYear.Some? ==> a.reducedPerYear.Some? && r.reducedPerYear.value <= a.reducedPerYear.value)
      && (a.reducedAtAsset.None? <==> forall r :: r in g ==> r.reducedAtAsset.None?)
      && (a.reducedAtAsset.Some? ==> exists r :: r in g && r.reducedAtAsset == a.reducedAtAsset)
      && (forall r :: r in g && r.reducedAtAsset.Some? ==> a.reducedAtAsset.Some? && r.reducedAtAsset.value <= a.reducedAtAsset.value)
  {
    var g := Group(kept, LevelKeyOf, k);
    MaxOfColumn(g, ReducedPerYear);
    MaxOfColumn(g, ReducedAtAsset);
  }

  /** SqlMax in terms of membership rather than indices. */
  lemma MaxOfColumn(g: seq<AssetRow>, f: AssetRow -> Option<real>)
    ensures SqlMax(g, f).None? <==> forall r :: r in g ==> f(r).None?
    ensures SqlMax(g, f).Some? ==> exists r :: r in g && f(r) == SqlMax(g, f)
    ensures forall r :: r in g && f(r).Some? ==> SqlMax(g, f).Some? && f(r).value <= SqlMax(g, f).value
  {
    var m := SqlMax(g, f);
    if m.Some? {
      var i :| 0 <= i < |g| && f(g[i]) == m;
      assert g[i] in g;
    }
    forall r | r in g && f(r).Some? ensures m.Some? && f(r).value <= m.value {
      var i :| 0 <= i < |g| && g[i] == r;
    }
  }

  /**
   * Rows of one asset that all repeat the same per-year reduction give that
   * reduction once, not their sum.
   */
  lemma AssetLevelTakesLargest(kept: seq<AssetRow>, k: LevelKey, v: real)
    requires Group(kept, LevelKeyOf, k) != []
    requires forall r :: r in Group(kept, LevelKeyOf, k) ==> r.reducedPerYear == Some(v)
    ensures AssetLevelOf(kept, k).reducedPerYear == Some(v)
  {
    var g := Group(kept, LevelKeyOf, k);
    assert g[0] in g;
    var m := SqlMax(g, ReducedPerYear);
    var j :| 0 <= j < |g| && ReducedPerYear(g[j]) == m;
    assert g[j] in g;
  }

  /** The strategy columns of `asset_level` that the outer GROUP BY keeps. */
  datatype ErsKey = ErsKey(subsector: string, strategyName: Option<string>, strategyDescription: Option<string>,
                           mechanism: Option<string>)

  function ErsKeyOf(a: AssetLevel): ErsKey {
    ErsKey(a.key.subsector, a.key.strategyName, a.key.strategyDescription, a.key.mechanism)
  }

  datatype ErsDemoRow = ErsDemoRow(key: ErsKey, assetsImpacted: nat, emissions: Option<int>,
                                   assetReduction: Option<int>, netReduction: Option<int>)

  /** One strategy: COUNT(DISTINCT asset_id) and the three rounded sums over its asset-level rows. */
  function ErsDemoRowOf(al: seq<AssetLevel>, k: ErsKey): ErsDemoRow {
    var g := Group(al, ErsKeyOf, k);
    ErsDemoRow(k, CountDistinct(g, LevelAssetId), RoundOpt(SqlSum(g, LevelEmissions)),
               RoundOpt(SqlSum(g, LevelAtAsset)), RoundOpt(SqlSum(g, LevelPerYear)))
  }

  function ErsDemoRows(ks: seq<ErsKey>, al: seq<AssetLevel>): (out: seq<ErsDemoRow>)
    ensures |out| == |ks|
    ensures forall i :: 0 <= i < |ks| ==> out[i] == ErsDemoRowOf(al, ks[i])
  {
    if ks == [] then [] else [ErsDemoRowOf(al, ks[0])] + ErsDemoRows(ks[1..], al)
  }

  function ErsNet(e: ErsDemoRow): Option<real> {
    if e.netReduction.None? then None else Some(e.netReduction.value as real)
  }

  function AssetLevelRows(rows: seq<AssetRow>, subsectors: seq<string>, year: int, countries: seq<string>)
    : seq<AssetLevel>
  {
    var kept := KeptRows(rows, Selection(subsectors, year, Some(countries)));
    AssetLevels(Keys(kept, LevelKeyOf), kept)
  }

  function SummarizeErsDemo(rows: seq<AssetRow>, subsectors: seq<string>, year: int, countries: seq<string>)
    : seq<ErsDemoRow>
  {
    var al := AssetLevelRows(rows, subsectors, year, countries);
    SortBy(ErsDemoRows(Keys(al, ErsKeyOf), al), DescNullsLast(ErsNet))
  }

  /** The asset-level rows keep the emissions of the selected rows. */
  lemma AssetLevelsKeepEmissions(rows: seq<AssetRow>, subsectors: seq<string>, year: int, countries: seq<string>)
    ensures SqlSum(AssetLevelRows(rows, subsectors, year, countries), LevelEmissions)
         == SqlSum(KeptRows(rows, Selection(subsectors, year, Some(countries))), Emissions)
  {
    LevelsKeepEmissions(KeptRows(rows, Selection(subsectors, year, Some(countries))));
  }

  lemma LevelsKeepEmissions(kept: seq<AssetRow>)
    ensures SqlSum(AssetLevels(Keys(kept, LevelKeyOf), kept), LevelEmissions) == SqlSum(kept, Emissions)
  {
    var ks := Keys(kept, LevelKeyOf);
    var al := AssetLevels(ks, kept);
    var gs := GroupSum(kept, LevelKeyOf, Emissions);
    forall i | 0 <= i < |al| ensures LevelEmissions(al[i]) == gs(ks[i]) {
      assert al[i] == AssetLevelOf(kept, ks[i]);
    }
    SqlSumPointwise(al, LevelEmissions, ks, gs);
    SqlSumOfGroupSums(ks, kept, LevelKeyOf, Emissions);
  }

  /** Asset-level rows built from distinct keys have distinct keys. */
  lemma LevelKeysDistinct(ks: seq<LevelKey>, al: seq<AssetLevel>)
    requires NoDup(ks)
    requires |al| == |ks| && forall i :: 0 <= i < |al| ==> al[i].key == ks[i]
    ensures NoDup(Map(al, LevelKeyOfLevel))
  {
    assert Map(al, LevelKeyOfLevel) == ks;
  }

  /** Within one strategy, asset-level rows with distinct keys are distinct assets. */
  lemma LevelIdsDistinct(g: seq<AssetLevel>, k: ErsKey)
    requires NoDup(Map(g, LevelKeyOfLevel))
    requires forall a :: a in g ==> ErsKeyOf(a) == k
    ensures NoDup(Map(g, LevelId))
  {
    var ids := Map(g, LevelId);
    forall i, j | 0 <= i < j < |g| ensures ids[i] != ids[j] {
      assert g[i] in g && g[j] in g;
      assert Map(g, LevelKeyOfLevel)[i] != Map(g, LevelKeyOfLevel)[j];
    }
  }

  /**
   * assets_impacted is the number of asset-level rows of the strategy:
   * one per asset, however many rows each asset has.
   */
  lemma AssetsImpactedCountsAssets(rows: seq<AssetRow>, subsectors: seq<string>, year: int, countries: seq<string>,
                                   k: ErsKey)
    ensures var al := AssetLevelRows(rows, subsectors, year, countries);
      ErsDemoRowOf(al, k).assetsImpacted == |Group(al, ErsKeyOf, k)|
  {
    var kept := KeptRows(rows, Selection(subsectors, year, Some(countries)));
    var ks := Keys(kept, LevelKeyOf);
    var al := AssetLevels(ks, kept);
    LevelKeysDistinct(ks, al);
    GroupNoDupMap(al, ErsKeyOf, k, LevelKeyOfLevel);
    LevelIdsDistinct(Group(al, ErsKeyOf, k), k);
    CountDistinctOfNoDup(Group(al, ErsKeyOf, k), LevelAssetId, LevelId);
  }

  /**
   * The summary has one row per strategy of the asset-level rows, in
   * descending order of total net reduction with NULLs last.
   */
  lemma SummarizeErsDemoOrder(rows: seq<AssetRow>, subsectors: seq<string>, year: int, countries: seq<string>)
    ensures var al := AssetLevelRows(rows, subsectors, year, countries);
      multiset(SummarizeErsDemo(rows, subsectors, year, countries)) == multiset(ErsDemoRows(Keys(al, ErsKeyOf), al))
    ensures var out := SummarizeErsDemo(rows, subsectors, year, countries);
      forall i, j :: (0 <= i < j < |out| && ErsNet(out[j]).Some?) ==>
        (ErsNet(out[i]).Some? && ErsNet(out[i]).value >= ErsNet(out[j]).value)
  {
    var al := AssetLevelRows(rows, subsectors, year, countries);
    DescNullsLastIsTotalPreorder(ErsNet);
    SortBySorted(ErsDemoRows(Keys(al, ErsKeyOf), al), DescNullsLast(ErsNet));
    SortedDescNullsLast(SummarizeErsDemo(rows, subsectors, year, countries), ErsNet);
  }
}
