/**
 * The percentile-benchmark reduction of one asset, shared by the sector and
 * asset-table queries of utils/queries.py: rows joined to the benchmark table
 * on subsector and asset type, the emissions E (with the marginal-emissions
 * override) and GREATEST(0, (E - SUM(activity * pct)) * p / 100).
 */
module BenchmarkReduction {
  import opened Wrappers
  import opened Seqs
  import opened Sql
  import opened Assets

  /** A row of the benchmark table, reduced to its join keys and the chosen percentile column. */
  datatype BenchmarkRow = BenchmarkRow(originalInventorySector: string, assetType: Option<string>, pct: Option<real>)

  /** An asset row with the percentile value it was joined to (NULL when no benchmark row matched). */
  datatype Joined = Joined(row: AssetRow, pct: Option<real>)

  /** `ae.subsector = pct.original_inventory_sector AND ae.asset_type_2 = pct.asset_type` (NULL never matches). */
  predicate Matches(r: AssetRow, b: BenchmarkRow) {
    r.subsector == b.originalInventorySector && r.assetType2.Some? && b.assetType == r.assetType2
  }

  function MatchingBenchmarks(r: AssetRow, bench: seq<BenchmarkRow>): (m: seq<BenchmarkRow>)
    ensures forall b :: b in m ==> b in bench && Matches(r, b)
    ensures forall b :: b in bench && Matches(r, b) ==> b in m
  {
    Filter(bench, b => Matches(r, b))
  }

  function JoinedWith(r: AssetRow, ms: seq<BenchmarkRow>): (js: seq<Joined>)
    ensures |js| == |ms|
    ensures forall i :: 0 <= i < |ms| ==> js[i] == Joined(r, ms[i].pct)
  {
    if ms == [] then [] else [Joined(r, ms[0].pct)] + JoinedWith(r, ms[1..])
  }

  /** The rows of one asset row in the LEFT JOIN: one per matching benchmark row, or one with a NULL percentile. */
  function JoinRow(r: AssetRow, bench: seq<BenchmarkRow>): (js: seq<Joined>)
    ensures js != []
    ensures forall j :: j in js ==> j.row == r
  {
    var ms := MatchingBenchmarks(r, bench);
    if ms == [] then [Joined(r, None)] else JoinedWith(r, ms)
  }

  /** `… LEFT JOIN percentile pct ON …`. */
  function LeftJoin(rows: seq<AssetRow>, bench: seq<BenchmarkRow>): (js: seq<Joined>)
    ensures forall j :: j in js ==> j.row in rows
  {
    if rows == [] then [] else JoinRow(rows[0], bench) + LeftJoin(rows[1..], bench)
  }

  /** A row without a matching benchmark row joins with a NULL percentile, once; it is never dropped. */
  lemma {:induction false} LeftJoinKeepsUnmatched(rows: seq<AssetRow>, bench: seq<BenchmarkRow>, r: AssetRow)
    requires r in rows
    ensures exists j :: j in LeftJoin(rows, bench) && j.row == r
    ensures MatchingBenchmarks(r, bench) == [] ==> Joined(r, None) in LeftJoin(rows, bench)
  {
    if rows[0] == r {
      assert JoinRow(r, bench)[0] in LeftJoin(rows, bench);
    } else {
      LeftJoinKeepsUnmatched(rows[1..], bench, r);
    }
  }

  function JActivity(j: Joined): Option<real> { j.row.activity }
  function JEmissions(j: Joined): Option<real> { j.row.emissions }
  function JEfMoer(j: Joined): Option<real> { j.row.efMoer }
  function JBenchmark(j: Joined): Option<real> { Times(j.row.activity, j.pct) }

  /**
   * E of an asset group: SUM(emissions) when AVG(ef_12_moer) is NULL,
   * otherwise SUM(activity) * AVG(ef_12_moer).
   */
  function GroupEmissions(g: seq<Joined>): (e: Option<real>)
    ensures SqlAvg(g, JEfMoer).None? ==> e == SqlSum(g, JEmissions)
    ensures SqlAvg(g, JEfMoer).Some? ==> e == Times(SqlSum(g, JActivity), SqlAvg(g, JEfMoer))
  {
    var ef := SqlAvg(g, JEfMoer);
    if ef.None? then SqlSum(g, JEmissions) else Times(SqlSum(g, JActivity), ef)
  }

  /** (E - SUM(activity * pct)) * (p / 100.0), NULL when either operand is. */
  function Gap(g: seq<Joined>, proportion: real): Option<real> {
    Times(Minus(GroupEmissions(g), SqlSum(g, JBenchmark)), Some(proportion / 100.0))
  }

  /** The sector query's per-asset reduction: GREATEST(0, Gap). */
  function SectorAssetReduction(g: seq<Joined>, proportion: real): (r: real)
    ensures r >= 0.0
    ensures Gap(g, proportion).Some? && Gap(g, proportion).value >= 0.0 ==> r == Gap(g, proportion).value
    ensures Gap(g, proportion).None? || Gap(g, proportion).value <= 0.0 ==> r == 0.0
  {
    GreatestZero(Gap(g, proportion))
  }

  /** The asset table's per-asset reduction: 0 when the group's percentile is NULL, else GREATEST(0, Gap). */
  function TableAssetReduction(g: seq<Joined>, pct: Option<real>, proportion: real): (r: real)
    ensures r >= 0.0
    ensures pct.None? ==> r == 0.0
    ensures pct.Some? ==> r == SectorAssetReduction(g, proportion)
  {
    if pct.None? then 0.0 else GreatestZero(Gap(g, proportion))
  }

  /**
   * When every quantity is present, the reduction is the part of E above the
   * benchmark emissions, scaled by p percent, and never negative.
   */
  lemma ReductionFormula(g: seq<Joined>, proportion: real, e: real, b: real)
    requires GroupEmissions(g) == Some(e) && SqlSum(g, JBenchmark) == Some(b)
    ensures SectorAssetReduction(g, proportion) == (if (e - b) * (proportion / 100.0) > 0.0 then (e - b) * (proportion / 100.0) else 0.0)
  {
  }

  lemma {:induction false} CountPresentOfNullPercentile(g: seq<Joined>)
    requires forall i :: 0 <= i < |g| ==> g[i].pct.None?
    ensures CountPresent(g, JBenchmark) == 0
  {
    if g != [] {
      assert forall i :: 1 <= i < |g| ==> g[1..][i - 1] == g[i];
      CountPresentOfNullPercentile(g[1..]);
    }
  }

  /** An asset none of whose rows found a benchmark has no reduction potential in either query. */
  lemma UnbenchmarkedAssetHasNoReduction(g: seq<Joined>, proportion: real)
    requires forall i :: 0 <= i < |g| ==> g[i].pct.None?
    ensures SectorAssetReduction(g, proportion) == 0.0
    ensures TableAssetReduction(g, None, proportion) == 0.0
  {
    CountPresentOfNullPercentile(g);
  }
}
