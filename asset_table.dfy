/**
 * `build_asset_reduction_sql` (utils/queries.py): the asset table under the
 * reduction page, at most 100 assets ordered by the chosen column, in the
 * strategy form and the percentile-benchmark form.
 */
module AssetTable {
  import opened Wrappers
  import opened Seqs
  import opened Sql
  import opened Text
  import opened Assets
  import opened BenchmarkReduction

  /** The column the table is ordered by. */
  datatype SortingCol = TotalReducedPerYear | ReductionPotential | EmissionsQuantity

  /** The three sorting preferences; any other leaves the column unbound (an error). */
  function SortingColFor(pref: string): (c: Option<SortingCol>)
    ensures c == Some(TotalReducedPerYear) <==> pref == "Net Reduction Potential"
    ensures c == Some(ReductionPotential) <==> pref == "Asset Reduction Potential"
    ensures c == Some(EmissionsQuantity) <==> pref == "Asset Annual Emissions"
  {
    if pref == "Net Reduction Potential" then Some(TotalReducedPerYear)
    else if pref == "Asset Reduction Potential" then Some(ReductionPotential)
    else if pref == "Asset Annual Emissions" then Some(EmissionsQuantity)
    else None
  }

  /** `lower(ae.asset_type) <> 'biomass'`: a NULL asset type does not pass. */
  predicate NotBiomass(r: AssetRow) {
    r.assetType.Some? && Lower(r.assetType.value) != "biomass"
  }

  /**
   * The rows the WHERE clause keeps: the caller's condition, or without one
   * the default that leaves out biomass assets.
   */
  function KeptRows(rows: seq<AssetRow>, whereClause: Option<AssetRow -> bool>): (kept: seq<AssetRow>)
    ensures forall r :: r in kept ==> r in rows
    ensures whereClause.None? ==> forall r :: r in kept ==> NotBiomass(r)
    ensures whereClause.None? ==> forall r :: r in rows && NotBiomass(r) ==> r in kept
    ensures whereClause.Some? ==> forall r :: r in kept ==> whereClause.value(r)
    ensures whereClause.Some? ==> forall r :: r in rows && whereClause.value(r) ==> r in kept
  {
    Filter(rows, if whereClause.None? then NotBiomass else whereClause.value)
  }

  /** Whatever its capitalisation, a biomass asset is left out by default, and so is one with no type. */
  lemma DefaultLeavesOutBiomass(rows: seq<AssetRow>, r: AssetRow)
    requires r.assetType.None? || Lower(r.assetType.value) == "biomass"
    ensures r !in KeptRows(rows, None)
  {
  }

  /** A row of the table; the benchmark form has no strategy and no net-reduction column. */
  datatype TableRow = TableRow(assetId: nat, assetName: string, iso3: string, countryName: string,
                               sector: string, subsector: string, assetType: Option<string>,
                               strategyName: Option<string>, emissions: Option<real>,
                               reductionPotential: real, totalReduced: Option<real>)

  function TEmissions(t: TableRow): Option<real> { t.emissions }

  function SortValue(c: SortingCol): TableRow -> Option<real> {
    match c
    case TotalReducedPerYear => (t: TableRow) => t.totalReduced
    case ReductionPotential => (t: TableRow) => Some(t.reductionPotential)
    case EmissionsQuantity => (t: TableRow) => t.emissions
  }

  /** The rows in descending order of the chosen column, NULLs last. */
  function Ordered(rows: seq<TableRow>, c: SortingCol): seq<TableRow> {
    SortBy(rows, DescNullsLast(SortValue(c)))
  }

  /** `ORDER BY … DESC LIMIT 100`. */
  function TopRows(rows: seq<TableRow>, c: SortingCol): seq<TableRow> {
    Take(Ordered(rows, c), 100)
  }

  /**
   * The table holds up to 100 of the rows, in descending order of the
   * column, and no row left out ranks above one that is shown.
   */
  lemma TopRowsAreTheTop(rows: seq<TableRow>, c: SortingCol)
    ensures |TopRows(rows, c)| == if |rows| < 100 then |rows| else 100
    ensures multiset(TopRows(rows, c)) <= multiset(rows)
    ensures SortedBy(TopRows(rows, c), DescNullsLast(SortValue(c)))
    ensures forall i, j :: 0 <= i < |TopRows(rows, c)| <= j < |Ordered(rows, c)| ==>
      DescNullsLast(SortValue(c))(TopRows(rows, c)[i], Ordered(rows, c)[j])
  {
    DescNullsLastIsTotalPreorder(SortValue(c));
    SortBySorted(rows, DescNullsLast(SortValue(c)));
    TakeSorted(Ordered(rows, c), 100, DescNullsLast(SortValue(c)));
  }

  // ---------------------------------------------------------------------
  // Strategy form (queries.py:375-408).

  /** The GROUP BY columns; the two reductions are grouped after COALESCE(…, 0). */
  datatype StrategyKey = StrategyKey(assetId: nat, assetName: string, iso3: string, countryName: string,
                                     sector: string, subsector: string, assetType: Option<string>,
                                     strategyName: Option<string>, reduction: real, totalReduced: real)

  function StrategyKeyOf(r: AssetRow): StrategyKey {
    StrategyKey(r.assetId, r.assetName, r.iso3, r.countryName, r.sector, r.subsector, r.assetType,
                r.strategyName, OrZero(r.reducedAtAsset), OrZero(r.reducedPerYear))
  }

  function StrategyRow(k: StrategyKey, kept: seq<AssetRow>): TableRow {
    TableRow(k.assetId, k.assetName, k.iso3, k.countryName, k.sector, k.subsector, k.assetType, k.strategyName,
             GroupSum(kept, StrategyKeyOf, Emissions)(k), k.reduction, Some(k.totalReduced))
  }

  function StrategyRows(ks: seq<StrategyKey>, kept: seq<AssetRow>): (out: seq<TableRow>)
    ensures |out| == |ks|
    ensures forall i :: 0 <= i < |ks| ==> out[i] == StrategyRow(ks[i], kept)
  {
    if ks == [] then [] else [StrategyRow(ks[0], kept)] + StrategyRows(ks[1..], kept)
  }

  /** The grouped rows before ordering. */
  function StrategyTable(kept: seq<AssetRow>): seq<TableRow> {
    StrategyRows(Keys(kept, StrategyKeyOf), kept)
  }

  /** A table row that shows row r's asset and its reductions, NULL read as 0. */
  predicate ShowsReductions(t: TableRow, r: AssetRow) {
    t.assetId == r.assetId && t.reductionPotential == OrZero(r.reducedAtAsset) &&
    t.totalReduced == Some(OrZero(r.reducedPerYear))
  }

  /** Every kept row lands in a table row showing its reductions. */
  lemma KeptRowShown(kept: seq<AssetRow>, i: nat)
    requires i < |kept|
    ensures exists j :: 0 <= j < |StrategyTable(kept)| && ShowsReductions(StrategyTable(kept)[j], kept[i])
  {
    var ks := Keys(kept, StrategyKeyOf);
    var j :| 0 <= j < |ks| && ks[j] == StrategyKeyOf(kept[i]);
    assert StrategyTable(kept)[j] == StrategyRow(ks[j], kept);
    assert ShowsReductions(StrategyTable(kept)[j], kept[i]);
  }

  /** Every table row shows the reductions of some kept row. */
  lemma ShownRowKept(kept: seq<AssetRow>, j: nat)
    requires j < |StrategyTable(kept)|
    ensures exists i :: 0 <= i < |kept| && ShowsReductions(StrategyTable(kept)[j], kept[i])
  {
    var ks := Keys(kept, StrategyKeyOf);
    assert ks[j] in ks;
    var i :| 0 <= i < |kept| && StrategyKeyOf(kept[i]) == ks[j];
    assert StrategyTable(kept)[j] == StrategyRow(ks[j], kept);
    assert ShowsReductions(StrategyTable(kept)[j], kept[i]);
  }

  /** Before the LIMIT, the table's emissions add up to those of the kept rows: none dropped, none repeated. */
  lemma StrategyTableKeepsEmissions(kept: seq<AssetRow>)
    ensures SqlSum(StrategyTable(kept), TEmissions) == SqlSum(kept, Emissions)
  {
    var ks := Keys(kept, StrategyKeyOf);
    var out := StrategyTable(kept);
    var gs := GroupSum(kept, StrategyKeyOf, Emissions);
    forall i | 0 <= i < |out| ensures TEmissions(out[i]) == gs(ks[i]) {
      assert out[i] == StrategyRow(ks[i], kept);
    }
    SqlSumPointwise(out, TEmissions, ks, gs);
    SqlSumOfGroupSums(ks, kept, StrategyKeyOf, Emissions);
  }

  // ---------------------------------------------------------------------
  // Percentile-benchmark form (queries.py:410-488).

  /** The GROUP BY columns, the asset's percentile value among them. */
  datatype BenchKey = BenchKey(assetId: nat, assetName: string, iso3: string, countryName: string,
                               sector: string, subsector: string, assetType: Option<string>, pct: Option<real>)

  function BenchKeyOf(j: Joined): BenchKey {
    BenchKey(j.row.assetId, j.row.assetName, j.row.iso3, j.row.countryName, j.row.sector, j.row.subsector,
             j.row.assetType, j.pct)
  }

  /** One asset and percentile value: its emissions and its (never negative) reduction. */
  function BenchRow(k: BenchKey, joined: seq<Joined>, proportion: real): (t: TableRow)
    ensures t.reductionPotential >= 0.0
    ensures k.pct.None? ==> t.reductionPotential == 0.0
    ensures k.pct.Some? ==> t.reductionPotential == SectorAssetReduction(Group(joined, BenchKeyOf, k), proportion)
    ensures t.emissions == SqlSum(Group(joined, BenchKeyOf, k), JEmissions)
  {
    var g := Group(joined, BenchKeyOf, k);
    TableRow(k.assetId, k.assetName, k.iso3, k.countryName, k.sector, k.subsector, k.assetType, None,
             SqlSum(g, JEmissions), TableAssetReduction(g, k.pct, proportion), None)
  }

  function BenchRows(ks: seq<BenchKey>, joined: seq<Joined>, proportion: real): (out: seq<TableRow>)
    ensures |out| == |ks|
    ensures forall i :: 0 <= i < |ks| ==> out[i] == BenchRow(ks[i], joined, proportion)
  {
    if ks == [] then [] else [BenchRow(ks[0], joined, proportion)] + BenchRows(ks[1..], joined, proportion)
  }

  /** The `assets` subquery, without its rank column. */
  function BenchTable(kept: seq<AssetRow>, bench: seq<BenchmarkRow>, proportion: real): seq<TableRow> {
    var joined := LeftJoin(kept, bench);
    BenchRows(Keys(joined, BenchKeyOf), joined, proportion)
  }

  /** An asset without a matching benchmark row is shown with reduction 0, never dropped. */
  lemma UnbenchmarkedAssetShowsZero(kept: seq<AssetRow>, bench: seq<BenchmarkRow>, proportion: real, r: AssetRow)
    requires r in kept && MatchingBenchmarks(r, bench) == []
    ensures exists t :: t in BenchTable(kept, bench, proportion) && t.assetId == r.assetId && t.reductionPotential == 0.0
  {
    var joined := LeftJoin(kept, bench);
    LeftJoinKeepsUnmatched(kept, bench, r);
    var ks := Keys(joined, BenchKeyOf);
    var i :| 0 <= i < |joined| && joined[i] == Joined(r, None);
    var j :| 0 <= j < |ks| && ks[j] == BenchKeyOf(joined[i]);
    assert BenchTable(kept, bench, proportion)[j] == BenchRow(ks[j], joined, proportion);
  }

  /**
   * `ROW_NUMBER() OVER (ORDER BY reduction DESC)`: a row with its rank. The
   * benchmark subquery computes this column, but the outer SELECT does not
   * return it and its `rank <= 100` filter is commented out, so the rank
   * never reaches the table; the ordering and LIMIT 100 that do are
   * TopRowsAreTheTop's.
   */
  datatype RankedRow = RankedRow(row: TableRow, rank: nat)

  function Potential(t: TableRow): Option<real> { Some(t.reductionPotential) }

  function Numbered(s: seq<TableRow>, from: nat): (out: seq<RankedRow>)
    ensures |out| == |s|
    ensures forall i :: 0 <= i < |s| ==> out[i] == RankedRow(s[i], from + i)
  {
    if s == [] then [] else [RankedRow(s[0], from)] + Numbered(s[1..], from + 1)
  }

  function Ranked(ts: seq<TableRow>): seq<RankedRow> {
    Numbered(SortBy(ts, DescNullsLast(Potential)), 1)
  }

  /** Ranks run 1, 2, … and a better rank never has a smaller reduction. */
  lemma RanksFollowReduction(ts: seq<TableRow>)
    ensures |Ranked(ts)| == |ts|
    ensures forall i :: 0 <= i < |ts| ==> Ranked(ts)[i].rank == i + 1
    ensures forall i, j :: 0 <= i < |ts| && 0 <= j < |ts| && Ranked(ts)[i].rank < Ranked(ts)[j].rank ==>
      Ranked(ts)[i].row.reductionPotential >= Ranked(ts)[j].row.reductionPotential
  {
    var o := SortBy(ts, DescNullsLast(Potential));
    DescNullsLastIsTotalPreorder(Potential);
    SortBySorted(ts, DescNullsLast(Potential));
    forall i, j | 0 <= i < |ts| && 0 <= j < |ts| && Ranked(ts)[i].rank < Ranked(ts)[j].rank
      ensures Ranked(ts)[i].row.reductionPotential >= Ranked(ts)[j].row.reductionPotential
    {
      assert Ranked(ts)[i].row == o[i] && Ranked(ts)[j].row == o[j];
      SortedDescNullsLast(o, Potential);
      assert Potential(o[i]).value >= Potential(o[j]).value;
    }
  }

  // ---------------------------------------------------------------------

  /**
   * `build_asset_reduction_sql`: None where the query cannot run (an unknown
   * sorting preference, or ordering the benchmark form by a column it does
   * not have).
   */
  function AssetReductionTable(useCtErs: bool, sortingPreference: string, rows: seq<AssetRow>,
                               whereClause: Option<AssetRow -> bool>, bench: seq<BenchmarkRow>,
                               proportion: real): (r: Option<seq<TableRow>>)
    ensures r.None? <==>
      (SortingColFor(sortingPreference).None? || (!useCtErs && SortingColFor(sortingPreference) == Some(TotalReducedPerYear)))
    ensures r.Some? ==> |r.value| <= 100
    ensures r.Some? && useCtErs ==>
      r.value == TopRows(StrategyTable(KeptRows(rows, whereClause)), SortingColFor(sortingPreference).value)
    ensures r.Some? && !useCtErs ==>
      r.value == TopRows(BenchTable(KeptRows(rows, whereClause), bench, proportion), SortingColFor(sortingPreference).value)
  {
    var c := SortingColFor(sortingPreference);
    if c.None? then None
    else
      var kept := KeptRows(rows, whereClause);
      if useCtErs then Some(TopRows(StrategyTable(kept), c.value))
      else if c.value == TotalReducedPerYear then None
      else Some(TopRows(BenchTable(kept, bench, proportion), c.value))
  }
}
